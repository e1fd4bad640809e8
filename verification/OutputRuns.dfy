/** The event loop and the output of one connection together: every move of the connection
    acts on its event, between steps or from any handler. */
module OutputRuns {
  import opened Rotation
  import opened Parts
  import opened Ring
  import opened RingWrite
  import opened RingQueue
  import opened RingRuns
  import opened Links
  import D = Dispatch

  /** `e`, named beside it, is the connection's event. */
  datatype Joint = Joint(loop: D.Loop, link: Link)

  /** Loop and link mean the same event; one that has never been registered has a blank queue
      and no owner. */
  predicate Agree(j: Joint, e: D.Event) {
    && e in j.loop.info
    && j.link.mask == j.loop.info[e].mask && j.link.attached == j.loop.info[e].attached
    && (j.link.fresh' ==> j.loop.info[e].queue == [] && !D.Owned(j.loop, e))
  }

  /** A move of the connection, or an action on another event. Occurrences may be pushed to
      any event. */
  datatype Act = Own(move: Move, ctlOk: bool) | Other(a: D.Action)

  /** What a move does to the centre. */
  function Action(j: Joint, e: D.Event, move: Move, ctlOk: bool): (s: seq<D.Action>)
    requires Indexed(j.link.out)
    ensures |s| <= 1 && forall a | a in s :: a.e == e
  {
    match move
    case Accept(data) => if Written(j.link.out, data) == 0 then [] else [D.Action.Enable(e, {D.Write})]
    case Flush(n) => Settling(j.link, Flushes(j.link, n), e)
    case Again => Settling(j.link, Retries(j.link), e)
    case Attach => [D.Action.Register(e, ctlOk)]
    case Detach => [D.Action.CancelEvent(e)]
    case Enable(m) => [D.Action.Enable(e, m)]
    case Disable(m) => [D.Action.Disable(e, m)]
  }

  /** After a send: nothing if there was nothing to send. */
  function Settling(before: Link, after: Link, e: D.Event): (s: seq<D.Action>)
    ensures |s| <= 1 && forall a | a in s :: a.e == e
  {
    if before.out.used == 0 then []
    else if after.out.used == 0 then [D.Action.Disable(e, {D.Write})] else [D.Action.Enable(e, {D.Write})]
  }

  /** What it does to the connection: a registration may fail. */
  function Moved(j: Joint, e: D.Event, move: Move, ctlOk: bool): (l: Link)
    requires Indexed(j.link.out) && e in j.loop.info
    ensures Indexed(l.out)
  {
    if move.Attach? && !D.Registers(j.loop, e, ctlOk) then j.link else Step(j.link, move)
  }

  predicate Known(j: Joint, e: D.Event) {
    D.OwnersKnown(j.loop) && Indexed(j.link.out) && e in j.loop.info
  }

  function Project(j: Joint, e: D.Event, act: Act): seq<D.Action>
    requires Indexed(j.link.out)
  {
    match act
    case Own(move, ctlOk) => Action(j, e, move, ctlOk)
    case Other(a) => [a]
  }

  predicate KnownAct(j: Joint, act: Act) { act.Other? ==> act.a.e in j.loop.info }

  function Perform(j: Joint, e: D.Event, act: Act): (k: Joint)
    requires Known(j, e) && KnownAct(j, act)
    ensures Known(k, e) && k.loop.info.Keys == j.loop.info.Keys
    ensures k.loop.running == j.loop.running && k.loop.active == j.loop.active
  {
    Joint(D.Script(j.loop, Project(j, e, act)), if act.Own? then Moved(j, e, act.move, act.ctlOk) else j.link)
  }

  /** The connection's moves are allowed, others leave its event's mask and registration to it,
      and what is registered is fresh. */
  predicate Fair(j: Joint, e: D.Event, act: Act)
    requires Known(j, e)
  {
    match act
    case Own(move, ctlOk) =>
      if move.Attach? then
        D.Fresh(j.loop, D.Action.Register(e, ctlOk)) && (D.Registers(j.loop, e, ctlOk) ==> Allowed(j.link, Attach))
      else Allowed(j.link, move)
    case Other(a) => a.e in j.loop.info && D.Fresh(j.loop, a) && (a.e == e ==> a.PushEvent?)
  }

  predicate Holds(j: Joint, e: D.Event) { D.Inv(j.loop) && Tracks(j.link) && Agree(j, e) }

  lemma ScriptOne(st: D.Loop, a: D.Action)
    requires D.OwnersKnown(st) && a.e in st.info
    ensures D.Script(st, []) == st && D.Script(st, [a]) == D.Act(st, a)
  {
    assert D.KnownAll(st, [a]);
    assert [a][1..] == [];
    assert D.Script(D.Act(st, a), []) == D.Act(st, a);
  }

  /** What a move comes to, on loop and link. */
  lemma OwnDoes(j: Joint, e: D.Event, move: Move, ctlOk: bool)
    requires Known(j, e)
    ensures var k := Perform(j, e, Own(move, ctlOk));
      && k.link == Moved(j, e, move, ctlOk)
      && k.loop ==
        match move {
          case Accept(data) => if Written(j.link.out, data) == 0 then j.loop else D.DoEnable(j.loop, e, {D.Write})
          case Flush(n) => SettledLoop(j, e, Flushes(j.link, n))
          case Again => SettledLoop(j, e, Retries(j.link))
          case Attach => D.DoRegister(j.loop, e, ctlOk)
          case Detach => D.DoCancel(j.loop, e)
          case Enable(m) => D.DoEnable(j.loop, e, m)
          case Disable(m) => D.DoDisable(j.loop, e, m)
        }
  {
    hide D.Script, D.DoEnable, D.DoDisable, D.DoCancel, D.DoRegister, Flushes, Retries, Written;
    var s := Action(j, e, move, ctlOk);
    if s == [] {
      ScriptNone(j.loop);
    } else {
      assert s == [s[0]] && s[0] in s;
      ScriptOne(j.loop, s[0]);
    }
  }

  function SettledLoop(j: Joint, e: D.Event, after: Link): D.Loop
    requires Known(j, e)
  {
    if j.link.out.used == 0 then j.loop
    else if after.out.used == 0 then D.DoDisable(j.loop, e, {D.Write}) else D.DoEnable(j.loop, e, {D.Write})
  }

  /** What an action on the event does to its mask and registration. */
  lemma MaskAfter(st: D.Loop, e: D.Event, m: D.Mask)
    requires D.Inv(st) && e in st.info
    ensures var i, t := st.info[e], D.DoEnable(st, e, m);
      t.owner == st.owner && t.info[e] == if i.attached then i.(mask := i.mask + m * D.IO) else i
    ensures var i, t := st.info[e], D.DoDisable(st, e, m);
      t.owner == st.owner && t.info[e] == if i.attached then i.(mask := i.mask - m * D.IO) else i
    ensures var i, t := st.info[e], D.DoCancel(st, e);
      t.owner == st.owner && t.info[e].mask == i.mask && !t.info[e].attached
        && (!i.attached ==> t.info[e] == i)
    ensures forall ctlOk :: var i, t := st.info[e], D.DoRegister(st, e, ctlOk);
      t.info[e] == if D.Registers(st, e, ctlOk) then i.(attached := true) else i
    ensures forall ctlOk :: !D.Registers(st, e, ctlOk) ==> D.DoRegister(st, e, ctlOk) == st
  {
    hide D.EventsOk, D.InterestOk, D.RunningOk, D.Listed;
  }

  /** The action of a move does to the event what the move does to the link. */
  lemma OwnAgrees(j: Joint, e: D.Event, move: Move, ctlOk: bool)
    requires D.Inv(j.loop) && Tracks(j.link) && Agree(j, e)
    ensures Agree(Perform(j, e, Own(move, ctlOk)), e)
  {
    hide D.Inv, D.Script, D.DoEnable, D.DoDisable, D.DoCancel, D.DoRegister, D.Registers, Accounted, Write, Written, MoveRead, U32;
    assert {D.Write} * D.IO == {D.Write};
    KnownHere(j, e);
    MaskAfter(j.loop, e, {D.Write});
    match move {
      case Enable(m) =>
        MaskAfter(j.loop, e, m);
        ScriptOne(j.loop, D.Action.Enable(e, m));
      case Disable(m) =>
        MaskAfter(j.loop, e, m);
        ScriptOne(j.loop, D.Action.Disable(e, m));
      case Attach => ScriptOne(j.loop, D.Action.Register(e, ctlOk));
      case Detach => ScriptOne(j.loop, D.Action.CancelEvent(e));
      case _ =>
        ScriptOne(j.loop, D.Action.Enable(e, {D.Write}));
        ScriptOne(j.loop, D.Action.Disable(e, {D.Write}));
    }
  }

  lemma KnownHere(j: Joint, e: D.Event)
    requires D.Inv(j.loop) && Tracks(j.link) && Agree(j, e)
    ensures Known(j, e)
  {
    hide D.EventsOk, D.InterestOk, D.RunningOk;
  }

  lemma OtherAgrees(j: Joint, e: D.Event, a: D.Action)
    requires D.Inv(j.loop) && Tracks(j.link) && Agree(j, e) && Known(j, e)
    requires a.e in j.loop.info && (a.e == e ==> a.PushEvent?)
    ensures Agree(Joint(D.Act(j.loop, a), j.link), e)
  {
    hide D.EventsOk, D.InterestOk, D.RunningOk, D.Listed, Accounted, D.RegistFd, D.CancelFd;
  }

  lemma OwnFresh(j: Joint, e: D.Event, move: Move, ctlOk: bool)
    requires Known(j, e) && Fair(j, e, Own(move, ctlOk))
    ensures forall a | a in Action(j, e, move, ctlOk) :: D.Fresh(j.loop, a)
  {
    hide D.Registers, Allowed, Flushes, Retries, Written;
  }

  /** One act keeps everything, in a handler too. */
  lemma PerformKeeps(j: Joint, e: D.Event, act: Act)
    requires Holds(j, e) && Known(j, e) && KnownAct(j, act) && Fair(j, e, act)
    ensures Holds(Perform(j, e, act), e)
  {
    hide D.Inv, D.Script, D.Act, D.Fresh, D.Registers, Accounted, Agree, Step, Allowed;
    match act {
      case Own(move, ctlOk) =>
        AgreeKnown(j, e);
        OwnAgrees(j, e, move, ctlOk);
        OwnFresh(j, e, move, ctlOk);
        var s := Action(j, e, move, ctlOk);
        if s != [] {
          assert s == [s[0]] && s[0] in s;
          ScriptOne(j.loop, s[0]);
          D.ActKeeps(j.loop, s[0]);
        } else {
          ScriptNone(j.loop);
        }
        if !move.Attach? || D.Registers(j.loop, e, ctlOk) { StepTracks(j.link, move); }
      case Other(a) =>
        ScriptOne(j.loop, a);
        OtherAgrees(j, e, a);
        D.ActKeeps(j.loop, a);
    }
  }

  lemma AgreeKnown(j: Joint, e: D.Event)
    requires Agree(j, e)
    ensures e in j.loop.info
  {
  }

  lemma ScriptNone(st: D.Loop)
    requires D.OwnersKnown(st)
    ensures D.Script(st, []) == st
  {
  }

  // ---------------------------------------------------------------- handlers

  predicate FairAll(j: Joint, e: D.Event, acts: seq<Act>)
    requires Known(j, e)
    decreases |acts|
  {
    acts == [] || (KnownAct(j, acts[0]) && Fair(j, e, acts[0]) && FairAll(Perform(j, e, acts[0]), e, acts[1..]))
  }

  function PerformAll(j: Joint, e: D.Event, acts: seq<Act>): (k: Joint)
    requires Known(j, e) && FairAll(j, e, acts)
    ensures Known(k, e) && k.loop.info.Keys == j.loop.info.Keys
    decreases |acts|
  {
    if acts == [] then j else PerformAll(Perform(j, e, acts[0]), e, acts[1..])
  }

  /** The actions on the centre that they come to. */
  function ProjectAll(j: Joint, e: D.Event, acts: seq<Act>): seq<D.Action>
    requires Known(j, e) && FairAll(j, e, acts)
    decreases |acts|
  {
    if acts == [] then [] else Project(j, e, acts[0]) + ProjectAll(Perform(j, e, acts[0]), e, acts[1..])
  }

  lemma ProjectFresh(j: Joint, e: D.Event, act: Act)
    requires Known(j, e) && KnownAct(j, act) && Fair(j, e, act)
    ensures var s := Project(j, e, act);
      |s| <= 1 && forall a | a in s :: a.e in j.loop.info && D.Fresh(j.loop, a)
  {
    hide D.Fresh, Fair;
    if act.Own? { FairOwn(j, e, act); OwnFresh(j, e, act.move, act.ctlOk); } else { FairOwn(j, e, act); }
  }

  lemma FairOwn(j: Joint, e: D.Event, act: Act)
    requires Known(j, e) && Fair(j, e, act)
    ensures act.Other? ==> act.a.e in j.loop.info && D.Fresh(j.loop, act.a)
  {
  }

  /** A script that begins with at most one action. */
  lemma ScriptPlus(st: D.Loop, s: seq<D.Action>, more: seq<D.Action>)
    requires D.OwnersKnown(st) && |s| <= 1 && forall a | a in s :: a.e in st.info && D.Fresh(st, a)
    requires D.KnownAll(st, s)
    requires var t := D.Script(st, s); D.KnownAll(t, more) && D.FreshAll(t, more)
    ensures D.KnownAll(st, s + more) && D.FreshAll(st, s + more)
    ensures D.Script(st, s + more) == D.Script(D.Script(st, s), more)
  {
    hide D.Fresh, D.Act;
    if s == [] {
      assert s + more == more;
    } else {
      assert s == [s[0]] && s[0] in s;
      ScriptOne(st, s[0]);
      assert (s + more)[0] == s[0] && (s + more)[1..] == more;
    }
  }

  /** A handler's acts keep everything, and are to the centre one fresh script. */
  lemma {:induction false} PerformAllKeeps(j: Joint, e: D.Event, acts: seq<Act>)
    requires Holds(j, e) && Known(j, e) && FairAll(j, e, acts)
    ensures Holds(PerformAll(j, e, acts), e)
    ensures var s := ProjectAll(j, e, acts);
      && D.KnownAll(j.loop, s) && D.FreshAll(j.loop, s)
      && D.Script(j.loop, s) == PerformAll(j, e, acts).loop
    decreases |acts|
  {
    hide Holds, Fair, D.Act;
    if acts != [] {
      PerformKeeps(j, e, acts[0]);
      var k := Perform(j, e, acts[0]);
      PerformAllKeeps(k, e, acts[1..]);
      ProjectFresh(j, e, acts[0]);
      ScriptPlus(j.loop, Project(j, e, acts[0]), ProjectAll(k, e, acts[1..]));
    }
  }

  // ---------------------------------------------------------------- steps

  datatype JStep =
    | Conn(act: Act)
    | Report(fd: int, m: D.Mask)
    | Merge
    | Dispatch(acts: seq<Act>)

  function Handler(j: Joint): Joint
    requires D.OwnersKnown(j.loop) && j.loop.active != []
  {
    Joint(D.Handling(j.loop), j.link)
  }

  predicate FairStep(j: Joint, e: D.Event, step: JStep)
    requires Known(j, e)
  {
    match step
    case Conn(act) => KnownAct(j, act) && Fair(j, e, act)
    case Report(_, _) => true
    case Merge => true
    case Dispatch(acts) =>
      && j.loop.active != [] && j.loop.active[0] in j.loop.info
      && (D.Handles(j.loop, j.loop.active[0]) ==> FairAll(Handler(j), e, acts))
  }

  /** The step that the loop takes. */
  function LoopStep(j: Joint, e: D.Event, step: JStep): seq<D.Step>
    requires Known(j, e) && FairStep(j, e, step)
  {
    match step
    case Conn(act) => Doing(Project(j, e, act))
    case Report(fd, m) => [D.Step.Report(fd, m)]
    case Merge => [D.Step.MergeWaiting]
    case Dispatch(acts) =>
      [D.Step.Dispatch(if D.Handles(j.loop, j.loop.active[0]) then ProjectAll(Handler(j), e, acts) else [])]
  }

  function Doing(s: seq<D.Action>): seq<D.Step> { if s == [] then [] else [D.Step.Do(s[0])] }

  function Next(j: Joint, e: D.Event, step: JStep): (k: Joint)
    requires Known(j, e) && FairStep(j, e, step)
    ensures Known(k, e) && k.loop.info.Keys == j.loop.info.Keys
  {
    match step
    case Conn(act) => Perform(j, e, act)
    case Report(fd, m) => Joint(D.Poll(j.loop, fd, m), j.link)
    case Merge => Joint(D.Merge(j.loop), j.link)
    case Dispatch(acts) =>
      var h := j.loop.active[0];
      if D.Handles(j.loop, h) then
        var k := PerformAll(Handler(j), e, acts);
        Joint(D.Finish(k.loop, h), k.link)
      else Joint(D.DispatchOne(j.loop, []), j.link)
  }

  /** Between steps of the loop everything agrees. */
  predicate Reached(j: Joint, e: D.Event) { D.Between(j.loop) && Tracks(j.link) && Agree(j, e) }

  lemma ReachedHolds(j: Joint, e: D.Event)
    requires Reached(j, e)
    ensures Holds(j, e) && Known(j, e) && j.loop.running == []
  {
    hide D.EventsOk, D.InterestOk, D.RunningOk, AllFit, Used, U32;
  }

  lemma ReportAgrees(j: Joint, e: D.Event, fd: int, m: D.Mask)
    requires D.OwnersKnown(j.loop) && Tracks(j.link) && Agree(j, e)
    ensures Agree(Joint(D.Poll(j.loop, fd, m), j.link), e)
  {
    hide Accounted;
  }

  lemma FinishAgrees(j: Joint, e: D.Event, h: D.Event)
    requires Agree(j, e) && h in j.loop.info
    ensures Agree(Joint(D.Finish(j.loop, h), j.link), e)
  {
  }

  lemma SkippedAgrees(j: Joint, e: D.Event)
    requires D.OwnersKnown(j.loop) && Agree(j, e) && j.loop.active != [] && j.loop.active[0] in j.loop.info
    requires !D.Handles(j.loop, j.loop.active[0])
    ensures Agree(Joint(D.DispatchOne(j.loop, []), j.link), e)
  {
    hide D.CancelFd;
  }

  lemma HandledIs(st: D.Loop, script: seq<D.Action>)
    requires D.OwnersKnown(st) && D.KnownAll(st, script) && st.active != [] && st.active[0] in st.info
    requires D.Handles(st, st.active[0])
    ensures D.KnownAll(D.Handling(st), script)
    ensures D.DispatchOne(st, script) == D.Finish(D.Script(D.Handling(st), script), st.active[0])
  {
    hide D.Script;
  }

  lemma RunOne(st: D.Loop, step: D.Step)
    requires D.OwnersKnown(st) && D.Takes(st, step)
    ensures D.Runs(st, [step]) && D.Run(st, [step]) == D.Next(st, step)
  {
    hide D.Takes, D.Next;
    assert [step][1..] == [];
    assert D.Run(D.Next(st, step), []) == D.Next(st, step);
  }

  lemma ConnKeeps(j: Joint, e: D.Event, act: Act)
    requires Reached(j, e) && Known(j, e) && KnownAct(j, act) && Fair(j, e, act)
    ensures Reached(Perform(j, e, act), e)
    ensures var s := Doing(Project(j, e, act)); D.Runs(j.loop, s) && D.Run(j.loop, s) == Perform(j, e, act).loop
  {
    hide D.Inv, D.Act, Fair, Agree, Accounted, Project, D.Fresh;
    ReachedHolds(j, e);
    PerformKeeps(j, e, act);
    ProjectFresh(j, e, act);
    var s := Project(j, e, act);
    if s == [] {
      ScriptNone(j.loop);
    } else {
      assert s == [s[0]] && s[0] in s;
      ScriptOne(j.loop, s[0]);
      RunOne(j.loop, D.Step.Do(s[0]));
    }
  }

  lemma HandledKeeps(j: Joint, e: D.Event, acts: seq<Act>)
    requires Reached(j, e) && Known(j, e) && FairStep(j, e, Dispatch(acts)) && D.Handles(j.loop, j.loop.active[0])
    ensures Reached(Next(j, e, Dispatch(acts)), e)
    ensures var s := ProjectAll(Handler(j), e, acts);
      D.Takes(j.loop, D.Step.Dispatch(s)) && D.Next(j.loop, D.Step.Dispatch(s)) == Next(j, e, Dispatch(acts)).loop
  {
    hide D.EventsOk, D.InterestOk, D.RunningOk, D.Script, D.DispatchOne, D.Finish, D.FreshAll, AllFit, Used, U32, PerformAll, ProjectAll, FairAll, Agree;
    var h, k := j.loop.active[0], Handler(j);
    ReachedHolds(j, e);
    D.HandlingKeeps(j.loop);
    HandlerAgrees(j, e);
    PerformAllKeeps(k, e, acts);
    var s := ProjectAll(k, e, acts);
    HandledIs(j.loop, s);
    D.NextKeeps(j.loop, D.Step.Dispatch(s));
    FinishAgrees(PerformAll(k, e, acts), e, h);
  }

  lemma HandlerAgrees(j: Joint, e: D.Event)
    requires D.OwnersKnown(j.loop) && j.loop.active != [] && Agree(j, e)
    ensures Agree(Handler(j), e)
  {
  }

  /** Every step of the loop and of the connection keeps all that holds, and the loop takes the
      steps that `Dispatch` describes. */
  lemma NextKeeps(j: Joint, e: D.Event, step: JStep)
    requires Reached(j, e) && Known(j, e) && FairStep(j, e, step)
    ensures Reached(Next(j, e, step), e)
    ensures var s := LoopStep(j, e, step); D.Runs(j.loop, s) && D.Run(j.loop, s) == Next(j, e, step).loop
  {
    hide D.EventsOk, D.InterestOk, D.RunningOk, D.Poll, D.DispatchOne, D.Finish, D.FreshAll, D.Handles,
      AllFit, Used, U32, PerformAll, ProjectAll, Agree, Perform, Doing, Project;
    ReachedHolds(j, e);
    match step {
      case Conn(act) => ConnKeeps(j, e, act);
      case Report(fd, m) =>
        D.NextKeeps(j.loop, D.Step.Report(fd, m));
        ReportAgrees(j, e, fd, m);
        RunOne(j.loop, D.Step.Report(fd, m));
      case Merge =>
        D.NextKeeps(j.loop, D.Step.MergeWaiting);
        MergeAgrees(j, e);
        RunOne(j.loop, D.Step.MergeWaiting);
      case Dispatch(acts) =>
        if D.Handles(j.loop, j.loop.active[0]) {
          HandledKeeps(j, e, acts);
          RunOne(j.loop, D.Step.Dispatch(ProjectAll(Handler(j), e, acts)));
        } else {
          D.NextKeeps(j.loop, D.Step.Dispatch([]));
          SkippedAgrees(j, e);
          RunOne(j.loop, D.Step.Dispatch([]));
        }
    }
  }

  lemma MergeAgrees(j: Joint, e: D.Event)
    requires Agree(j, e)
    ensures Agree(Joint(D.Merge(j.loop), j.link), e)
  {
  }

  // ---------------------------------------------------------------- runs

  predicate Runs(j: Joint, e: D.Event, steps: seq<JStep>)
    requires Known(j, e)
    decreases |steps|
  {
    steps == [] || (FairStep(j, e, steps[0]) && Runs(Next(j, e, steps[0]), e, steps[1..]))
  }

  function After(j: Joint, e: D.Event, steps: seq<JStep>): (k: Joint)
    requires Known(j, e) && Runs(j, e, steps)
    ensures Known(k, e)
    decreases |steps|
  {
    if steps == [] then j else After(Next(j, e, steps[0]), e, steps[1..])
  }

  lemma {:induction false} RunReached(j: Joint, e: D.Event, steps: seq<JStep>)
    requires Reached(j, e) && Known(j, e) && Runs(j, e, steps)
    ensures Reached(After(j, e, steps), e)
    decreases |steps|
  {
    hide Reached, Known, Next, FairStep;
    if steps != [] {
      NextKeeps(j, e, steps[0]);
      RunReached(Next(j, e, steps[0]), e, steps[1..]);
    }
  }

  /** A program at start: its events, one of them a new connection's. */
  function Begin(masks: map<D.Event, D.Mask>): Joint { Joint(D.Start(masks), Links.Start()) }

  lemma BeginReached(masks: map<D.Event, D.Mask>, e: D.Event)
    requires e in masks && masks[e] == {D.Read, D.Write}
    ensures Reached(Begin(masks), e) && Known(Begin(masks), e)
  {
    hide D.EventsOk, D.InterestOk, D.RunningOk, D.Filed, AllFit, Used, U32, Agree, D.Start, Links.Start;
    D.StartHolds(masks);
    StartTracks();
    BeginAgrees(masks, e);
    BeginKnown(masks, e);
  }

  lemma BeginAgrees(masks: map<D.Event, D.Mask>, e: D.Event)
    requires e in masks && masks[e] == {D.Read, D.Write}
    ensures Agree(Joint(D.Start(masks), Links.Start()), e)
  {
    assert masks[e] + {D.Cancel} == {D.Read, D.Write, D.Cancel};
  }

  lemma BeginKnown(masks: map<D.Event, D.Mask>, e: D.Event)
    requires e in masks
    ensures Known(Joint(D.Start(masks), Links.Start()), e)
  {
  }

  /** Where output is counted and the event registered, the kernel waits for the descriptor to
      be writable. */
  lemma HasInterest(j: Joint, e: D.Event)
    requires Reached(j, e) && j.link.attached && 0 < j.link.out.used
    ensures D.OwnersKnown(j.loop) && D.Write in D.Interest(j.loop.kernel, e.fd)
  {
    hide D.Listed, D.RunningOk, AllFit, Used;
    assert D.EventOk(j.loop, e);
    D.AttachedOwned(j.loop, e);
    assert D.Write in j.link.mask * D.RW;
  }

  /** In every run of the loop and the connection from the start, whatever handlers do: no
      output is lost, and as long as there is any and the connection is registered, the kernel
      waits to write it; unless exactly 2^32 bytes are stored. */
  lemma OutputHasInterest(masks: map<D.Event, D.Mask>, e: D.Event, steps: seq<JStep>)
    requires e in masks && masks[e] == {D.Read, D.Write}
    requires Known(Begin(masks), e) && Runs(Begin(masks), e, steps)
    ensures var j := After(Begin(masks), e, steps); var l := j.link;
      && (l.taken == l.sent + l.out.used <==> Backlog(l) != WORD)
      && l.attached == j.loop.info[e].attached
      && (l.attached && 0 < Backlog(l) != WORD ==> D.Write in D.Interest(j.loop.kernel, e.fd))
  {
    hide Runs, After, Begin, AllFit, Used, D.Inv;
    BeginReached(masks, e);
    RunReached(Begin(masks), e, steps);
    var j := After(Begin(masks), e, steps);
    TracksMeans(j.link);
    if j.link.attached && 0 < j.link.out.used {
      HasInterest(j, e);
    }
  }
}
