/** Timers in the dispatch loop of `chaos::EventCentre`. `Timer::Launch` puts them on the active
    list without an occurrence in their queue, so that the invariant of `Dispatch` does not
    hold of them; this is what holds instead, and when. */
module TimerDispatch {
  import opened Heaps
  import opened Timers
  import TimerRuns

  /** How many CANCELs are in the timer's queue, where nothing else is ever put, and whether
      `m_pCentre` is set. */
  datatype Marks = Marks(cancels: nat, attached: bool)

  /** `timers.fired` is the active list, `running` the entry being handled. */
  datatype Loop = Loop(
    timers: State, marks: map<TimerEvent, Marks>, waiting: seq<TimerEvent>, running: seq<TimerEvent>)

  function Entries(st: Loop): multiset<TimerEvent> { multiset(st.timers.fired) + multiset(st.waiting) }

  predicate Owned(st: Loop, e: TimerEvent) { e.id in st.timers.owned && st.timers.owned[e.id] == e }

  /** A CANCEL is there that `PopCurEv` after the current handler does not take. */
  predicate Pending(st: Loop, e: TimerEvent) {
    e in st.marks && (if e in st.running then 1 else 0) < st.marks[e].cancels
  }

  // ---------------------------------------------------------------- operations

  datatype Action =
    | Create(e: TimerEvent, i: Info)
    | Register(e: TimerEvent)
    | CancelEvent(e: TimerEvent)
    | Set(e: TimerEvent, loop: bool, suspended: bool)
    | Die(e: TimerEvent)

  predicate Registers(st: Loop, e: TimerEvent)
    requires e in st.marks
  {
    !st.marks[e].attached && e.id !in st.timers.owned
  }

  /** Objects are created once, die when the map does not own them, and are called while they
      live. A timer is registered with nothing in its queue and no entry in the heap. */
  predicate Can(st: Loop, a: Action) {
    match a
    case Create(e, _) => e !in st.marks && e !in st.timers.live && e !in st.timers.heap
    case Register(e) =>
      e in st.timers.live && e in st.marks
      && (Registers(st, e) ==> st.marks[e].cancels == 0 && e !in st.timers.heap)
    case CancelEvent(e) => e in st.timers.live && e in st.marks
    case Set(e, _, _) => e in st.timers.live
    case Die(e) => !Owned(st, e)
  }

  function DoRegister(st: Loop, e: TimerEvent): Loop
    requires e in st.marks
  {
    if !Registers(st, e) then st
    else st.(timers := AddTimer(st.timers, e), marks := st.marks[e := st.marks[e].(attached := true)])
  }

  /** `PushEvent` of CANCEL, then the event leaves the centre. */
  function DoCancel(st: Loop, e: TimerEvent): Loop
    requires e in st.marks
  {
    if !st.marks[e].attached then st
    else st.(waiting := st.waiting + [e], marks := st.marks[e := Marks(st.marks[e].cancels + 1, false)])
  }

  function Act(st: Loop, a: Action): (t: Loop)
    requires Can(st, a)
    ensures t.running == st.running && t.timers.fired == st.timers.fired
  {
    match a
    case Create(e, i) =>
      st.(timers := st.timers.(live := st.timers.live[e := i]), marks := st.marks[e := Marks(0, false)])
    case Register(e) => DoRegister(st, e)
    case CancelEvent(e) => DoCancel(st, e)
    case Set(e, loop, suspended) =>
      var i := st.timers.live[e].(loop := loop, suspended := suspended);
      st.(timers := st.timers.(live := st.timers.live[e := i]))
    case Die(e) => st.(timers := st.timers.(live := st.timers.live - {e}))
  }

  predicate CanAll(st: Loop, script: seq<Action>)
    decreases |script|
  {
    script == [] || (Can(st, script[0]) && CanAll(Act(st, script[0]), script[1..]))
  }

  function Script(st: Loop, script: seq<Action>): (t: Loop)
    requires CanAll(st, script)
    ensures t.running == st.running && t.timers.fired == st.timers.fired
    decreases |script|
  {
    if script == [] then st else Script(Act(st, script[0]), script[1..])
  }

  /** The first entry is taken from the active list. */
  function Taking(st: Loop): Loop
    requires st.timers.fired != []
  {
    st.(timers := st.timers.(fired := st.timers.fired[1..]))
  }

  function Handling(st: Loop): Loop
    requires st.timers.fired != []
  {
    Taking(st).(running := [st.timers.fired[0]])
  }

  /** `PopCurEv`. */
  function Finish(st: Loop, e: TimerEvent): Loop
    requires e in st.marks
  {
    var i := st.marks[e];
    st.(marks := st.marks[e := i.(cancels := if i.cancels == 0 then 0 else i.cancels - 1)], running := [])
  }

  predicate Handles(st: Loop, e: TimerEvent) {
    && st.timers.fired != [] && st.timers.fired[0] == e
    && e in st.marks && st.marks[e].cancels == 0 && st.marks[e].attached
  }

  /** The first entry is known, and its handler, if it is called, can do what it does. */
  predicate Dispatches(st: Loop, script: seq<Action>) {
    && st.timers.fired != [] && st.timers.fired[0] in st.marks
    && (Handles(st, st.timers.fired[0]) ==>
          CanAll(Handling(st), script) && st.timers.fired[0] in Script(Handling(st), script).marks)
  }

  /** One pass of the loop in `ProcessActiveEvent`. */
  function DispatchOne(st: Loop, script: seq<Action>): (t: Loop)
    requires Dispatches(st, script)
    ensures t.timers.fired == st.timers.fired[1..]
  {
    var e := st.timers.fired[0];
    if 0 < st.marks[e].cancels then Taking(st).(timers := DelTimer(Taking(st).timers, e))
    else if !st.marks[e].attached then Taking(st)
    else Finish(Script(Handling(st), script), e)
  }

  datatype Step =
    | Do(a: Action)
    | MergeWaiting
    | Launching(last: nat, clock: nat -> nat)
    | Dispatch(script: seq<Action>)

  ghost predicate Takes(st: Loop, step: Step) {
    match step
    case Do(a) => Can(st, a)
    case MergeWaiting => true
    case Launching(last, clock) => Ticks(clock, last) && Paced(st.timers, last)
    case Dispatch(script) => Dispatches(st, script)
  }

  function Merge(st: Loop): Loop {
    st.(timers := st.timers.(fired := st.waiting + st.timers.fired), waiting := [])
  }

  ghost function Launched(st: Loop, last: nat, clock: nat -> nat): Loop
    requires Ticks(clock, last) && Paced(st.timers, last)
  {
    st.(timers := Launch(st.timers, last, clock))
  }

  ghost function Next(st: Loop, step: Step): Loop
    requires Takes(st, step)
  {
    match step
    case Do(a) => Act(st, a)
    case MergeWaiting => Merge(st)
    case Launching(last, clock) => Launched(st, last, clock)
    case Dispatch(script) => DispatchOne(st, script)
  }

  // ---------------------------------------------------------------- what always holds

  /** The map holds living timers under their ids, and everything in the loop is known. */
  predicate Filed(st: Loop) {
    && Distinct(st.timers.heap)
    && (forall id | id in st.timers.owned :: st.timers.owned[id].id == id && st.timers.owned[id] in st.timers.live)
    && (forall e | e in st.timers.live :: e in st.marks)
    && (forall e | e in Entries(st) :: e in st.marks)
    && (forall e | e in st.running :: e in st.marks)
  }

  /** A registered timer has nothing in its queue, unless it is being handled; and the map
      keeps a cancelled timer while there is an entry to delete it by. */
  predicate MarksOk(st: Loop, e: TimerEvent)
    requires e in st.marks
  {
    var i := st.marks[e];
    && i.cancels <= 1 && (i.attached ==> i.cancels == 0)
    && (Pending(st, e) && Owned(st, e) ==> e in Entries(st))
  }

  predicate Inv(st: Loop) { Filed(st) && |st.running| <= 1 && forall e | e in st.marks :: MarksOk(st, e) }

  /** What an action is to the timers: a step of `TimerRuns`, or nothing. */
  function TimerStep(st: Loop, a: Action): seq<TimerRuns.Step> {
    match a
    case Create(e, i) => [TimerRuns.Create(e, i)]
    case Register(e) => if e in st.marks && Registers(st, e) then [TimerRuns.Add(e)] else []
    case CancelEvent(_) => []
    case Set(e, loop, suspended) => [TimerRuns.Set(e, loop, suspended)]
    case Die(e) => [TimerRuns.Die(e)]
  }

  /** So actions are steps of `TimerRuns` on the heap and the map. */
  lemma ActSteps(st: Loop, a: Action)
    requires Filed(st) && Can(st, a)
    ensures var steps := TimerStep(st, a);
      TimerRuns.Runs(st.timers, steps) && Act(st, a).timers == TimerRuns.After(st.timers, steps)
  {
    hide AddTimer;
    var steps := TimerStep(st, a);
    if steps != [] {
      var t := Act(st, a).timers;
      assert steps[1..] == [];
      assert TimerRuns.Takes(st.timers, steps[0]) && TimerRuns.AddsOnce(st.timers, steps[0]) by {
        if a.Die? { FiledOwner(st, a.e); }
      }
      assert TimerRuns.Next(st.timers, steps[0]) == t;
      assert TimerRuns.Runs(t, []) && TimerRuns.After(t, []) == t;
    }
  }

  lemma FiledOwner(st: Loop, e: TimerEvent)
    requires Filed(st) && !Owned(st, e)
    ensures forall id | id in st.timers.owned :: st.timers.owned[id] != e
  {
    hide Entries, Distinct;
  }

  lemma ActInv(st: Loop, a: Action)
    requires Inv(st) && Can(st, a)
    ensures Inv(Act(st, a)) && st.marks.Keys <= Act(st, a).marks.Keys
  {
    hide AddTimer, Distinct, Entries, MarksOk;
    ActFiled(st, a);
    var t := Act(st, a);
    forall e | e in t.marks ensures MarksOk(t, e) {
      ActMarks(st, a, e);
    }
  }

  lemma ActFiled(st: Loop, a: Action)
    requires Filed(st) && Can(st, a)
    ensures Filed(Act(st, a))
  {
    hide AddTimer, Distinct;
    if a.Register? && Registers(st, a.e) {
      AddsEntry(st.timers, a.e);
    }
  }

  lemma ActMarks(st: Loop, a: Action, e: TimerEvent)
    requires Can(st, a) && e in Act(st, a).marks && (e in st.marks ==> MarksOk(st, e))
    ensures MarksOk(Act(st, a), e)
  {
    hide Push;
  }

  lemma AddsEntry(st: State, e: TimerEvent)
    requires e.id !in st.owned && e !in st.heap && Distinct(st.heap)
    ensures var t := AddTimer(st, e);
      Distinct(t.heap) && t.owned == st.owned[e.id := e] && t.live == st.live && t.fired == st.fired
  {
    TimerRuns.AddDistinctIff(st, e);
  }

  lemma {:induction false} ScriptInv(st: Loop, script: seq<Action>)
    requires Inv(st) && CanAll(st, script)
    ensures Inv(Script(st, script)) && st.marks.Keys <= Script(st, script).marks.Keys
    decreases |script|
  {
    hide Inv, Act, Can;
    if script != [] {
      ActInv(st, script[0]);
      ScriptInv(Act(st, script[0]), script[1..]);
    }
  }

  lemma TakingEntries(st: Loop)
    requires st.timers.fired != []
    ensures Entries(st) == Entries(Taking(st)) + multiset{st.timers.fired[0]}
  {
    assert st.timers.fired == [st.timers.fired[0]] + st.timers.fired[1..];
  }

  lemma HandlingInv(st: Loop)
    requires Inv(st) && st.timers.fired != [] && Handles(st, st.timers.fired[0]) && st.running == []
    ensures Inv(Handling(st))
  {
    hide Entries, Distinct;
    TakingEntries(st);
    assert Entries(Handling(st)) == Entries(Taking(st)) by { SameEntries(Handling(st), Taking(st)); }
    forall e | e in st.marks ensures MarksOk(Handling(st), e) {
      assert MarksOk(st, e);
    }
  }

  lemma SameEntries(st: Loop, t: Loop)
    requires st.timers.fired == t.timers.fired && st.waiting == t.waiting
    ensures Entries(st) == Entries(t)
  {
  }

  lemma FinishInv(st: Loop, e: TimerEvent)
    requires Inv(st) && st.running == [e] && e in st.marks
    ensures Inv(Finish(st, e))
  {
    hide Entries, Distinct;
    var t := Finish(st, e);
    SameEntries(st, t);
    forall x | x in t.marks ensures MarksOk(t, x) {
      assert MarksOk(st, x);
    }
  }

  lemma DispatchInv(st: Loop, script: seq<Action>)
    requires Inv(st) && st.running == [] && Dispatches(st, script)
    ensures Inv(DispatchOne(st, script)) && DispatchOne(st, script).running == []
  {
    hide Entries, Distinct, Script, CanAll;
    var e := st.timers.fired[0];
    if Handles(st, e) {
      HandlingInv(st);
      ScriptInv(Handling(st), script);
      FinishInv(Script(Handling(st), script), e);
    } else {
      var t := DispatchOne(st, script);
      TakingEntries(st);
      SameEntries(t, Taking(st));
      forall x | x in t.marks ensures MarksOk(t, x) {
        assert MarksOk(st, x);
        assert MarksOk(st, e);
      }
    }
  }

  /** What a launch does to the loop. */
  lemma LaunchedIs(st: Loop, last: nat, clock: nat -> nat)
    requires Filed(st) && Ticks(clock, last) && Paced(st.timers, last)
    ensures var t, fires := Launched(st, last, clock), Fires(st.timers, last, clock);
      && Entries(t) == Entries(st) + multiset(fires) && t.timers.live.Keys == st.timers.live.Keys
      && Distinct(t.timers.heap) && (forall e | e in fires :: e in st.timers.live)
      && t.timers.owned == st.timers.owned - Disowned(st.timers, t.timers, last)
  {
    hide Launch, Fires, Distinct, Disowned;
    LaunchTakes(st.timers, last, clock);
    LaunchAppends(st.timers, last, clock);
    LaunchFiresTaken(st.timers, last, clock);
    LaunchDisownsTaken(st.timers, last, clock);
  }

  lemma LaunchInv(st: Loop, last: nat, clock: nat -> nat)
    requires Inv(st) && Ticks(clock, last) && Paced(st.timers, last)
    ensures Inv(Launched(st, last, clock))
  {
    hide Launch, Fires, Entries, Distinct, Disowned, Paced;
    var t := Launched(st, last, clock);
    LaunchedIs(st, last, clock);
    forall x | x in t.marks ensures MarksOk(t, x) {
      assert MarksOk(st, x);
    }
    forall e | e in Entries(t) ensures e in t.marks {
      assert e in Entries(st) || e in multiset(Fires(st.timers, last, clock));
    }
  }

  predicate Between(st: Loop) { Inv(st) && st.running == [] }

  /** Every step keeps it. */
  lemma NextInv(st: Loop, step: Step)
    requires Between(st) && Takes(st, step)
    ensures Between(Next(st, step))
  {
    hide Act, DispatchOne, Launched, Can, Dispatches, MarksOk;
    match step {
      case Do(a) => ActInv(st, a);
      case MergeWaiting => MergeInv(st);
      case Launching(last, clock) =>
        LaunchInv(st, last, clock);
        assert Launched(st, last, clock).running == [] by { LaunchedRest(st, last, clock); }
      case Dispatch(script) => DispatchInv(st, script);
    }
  }

  lemma LaunchedRest(st: Loop, last: nat, clock: nat -> nat)
    requires Ticks(clock, last) && Paced(st.timers, last)
    ensures var t := Launched(st, last, clock); t.running == st.running && t.marks == st.marks && t.waiting == st.waiting
  {
  }

  lemma MergeInv(st: Loop)
    requires Inv(st)
    ensures Inv(Merge(st)) && Entries(Merge(st)) == Entries(st)
  {
    hide Distinct;
    assert Entries(Merge(st)) == Entries(st);
    forall x | x in st.marks ensures MarksOk(Merge(st), x) {
      assert MarksOk(st, x);
    }
  }

  // ---------------------------------------------------------------- safety

  /** Every entry is owned by the timer map, and a cancelled timer has one entry. */
  predicate EntrySafe(st: Loop, e: TimerEvent) {
    e in Entries(st) || e in st.running ==> Owned(st, e) && (Pending(st, e) ==> Entries(st)[e] == 1)
  }

  predicate Safe(st: Loop) { forall e | e in st.marks :: EntrySafe(st, e) }

  /** Cancelling is safe for a timer that has no entry and that no launch has dropped, and for
      the timer that is being handled. */
  predicate CarefulAct(st: Loop, a: Action) {
    a.CancelEvent? && a.e in st.marks && st.marks[a.e].attached ==>
      a.e in st.running || (Owned(st, a.e) && a.e !in Entries(st))
  }

  /** An action keeps the loop safe if and only if it meets that. */
  lemma ActSafeIff(st: Loop, a: Action)
    requires Inv(st) && Safe(st) && Can(st, a)
    ensures Safe(Act(st, a)) <==> CarefulAct(st, a)
  {
    hide AddTimer, Entries, Filed;
    var t := Act(st, a);
    if a.CancelEvent? && st.marks[a.e].attached {
      assert Entries(t) == Entries(st) + multiset{a.e} by { WaitingMore(st, t, a.e); }
      CancelSafeIff(st, a.e);
    } else {
      SameEntries(st, t);
      ActKeepsSafe(st, a);
    }
  }

  lemma WaitingMore(st: Loop, t: Loop, e: TimerEvent)
    requires t.timers.fired == st.timers.fired && t.waiting == st.waiting + [e]
    ensures Entries(t) == Entries(st) + multiset{e}
  {
  }

  lemma CancelSafeIff(st: Loop, e: TimerEvent)
    requires Inv(st) && Safe(st) && e in st.marks && st.marks[e].attached
    ensures Safe(DoCancel(st, e)) <==> e in st.running || (Owned(st, e) && e !in Entries(st))
  {
    hide Entries, Filed;
    var t := DoCancel(st, e);
    WaitingMore(st, t, e);
    assert MarksOk(st, e) && EntrySafe(st, e);
    assert EntrySafe(t, e) <==> e in st.running || (Owned(st, e) && e !in Entries(st));
    forall x | x in st.marks && x != e ensures EntrySafe(t, x) {
      assert EntrySafe(st, x);
    }
  }

  lemma ActKeepsSafe(st: Loop, a: Action)
    requires Inv(st) && Safe(st) && Can(st, a) && !(a.CancelEvent? && st.marks[a.e].attached)
    ensures Safe(Act(st, a))
  {
    hide Entries, AddTimer;
    var t := Act(st, a);
    SameEntries(st, t);
    if a.Register? && Registers(st, a.e) {
      AddsEntry(st.timers, a.e);
    }
    forall x | x in t.marks ensures EntrySafe(t, x) {
      if x in st.marks {
        assert EntrySafe(st, x) && MarksOk(st, x);
      }
    }
  }

  /** What a launch fires is in the map and not cancelled, and what it drops from the map has
      no entry. */
  ghost predicate CarefulLaunch(st: Loop, last: nat, clock: nat -> nat)
    requires Ticks(clock, last) && Paced(st.timers, last)
  {
    var fires := Fires(st.timers, last, clock);
    var gone := Disowned(st.timers, Launch(st.timers, last, clock), last);
    && (forall e | e in fires :: Owned(st, e) && !Pending(st, e))
    && (forall e | e in st.marks && (e in fires || e in Entries(st)) :: e.id !in gone)
  }

  /** A launch keeps the loop safe if and only if it meets that: a cancelled timer that is due
      is listed a second time, and a deleted one that somebody still holds is listed again. */
  lemma LaunchSafeIff(st: Loop, last: nat, clock: nat -> nat)
    requires Between(st) && Safe(st) && Ticks(clock, last) && Paced(st.timers, last)
    ensures Safe(Launched(st, last, clock)) <==> CarefulLaunch(st, last, clock)
  {
    hide Launch, Fires, Entries, Disowned, Paced;
    if CarefulLaunch(st, last, clock) {
      LaunchSafe(st, last, clock);
    }
    if Safe(Launched(st, last, clock)) {
      SafeLaunch(st, last, clock);
    }
  }

  lemma LaunchSafe(st: Loop, last: nat, clock: nat -> nat)
    requires Between(st) && Safe(st) && Ticks(clock, last) && Paced(st.timers, last) && CarefulLaunch(st, last, clock)
    ensures Safe(Launched(st, last, clock))
  {
    hide Launch, Fires, Entries, Disowned, Paced;
    var t, fires := Launched(st, last, clock), Fires(st.timers, last, clock);
    LaunchedIs(st, last, clock);
    forall e | e in t.marks ensures EntrySafe(t, e) {
      assert EntrySafe(st, e) && MarksOk(st, e);
      assert multiset(fires)[e] > 0 <==> e in fires;
    }
  }

  lemma SafeLaunch(st: Loop, last: nat, clock: nat -> nat)
    requires Between(st) && Ticks(clock, last) && Paced(st.timers, last) && Safe(Launched(st, last, clock))
    ensures CarefulLaunch(st, last, clock)
  {
    hide Launch, Fires, Entries, Disowned, Paced;
    var t, fires := Launched(st, last, clock), Fires(st.timers, last, clock);
    var gone := Disowned(st.timers, t.timers, last);
    LaunchedIs(st, last, clock);
    forall e | e in fires ensures Owned(st, e) && !Pending(st, e) {
      assert e in st.marks && EntrySafe(t, e) && MarksOk(st, e);
      assert e in multiset(fires);
    }
    forall e | e in st.marks && (e in fires || e in Entries(st)) ensures e.id !in gone {
      assert EntrySafe(t, e);
      assert e in multiset(fires) || e in Entries(st);
    }
  }

  predicate AllCareful(st: Loop, script: seq<Action>)
    requires CanAll(st, script)
    decreases |script|
  {
    script == [] || (CarefulAct(st, script[0]) && AllCareful(Act(st, script[0]), script[1..]))
  }

  ghost predicate Careful(st: Loop, step: Step)
    requires Takes(st, step)
  {
    match step
    case Do(a) => CarefulAct(st, a)
    case MergeWaiting => true
    case Launching(last, clock) => CarefulLaunch(st, last, clock)
    case Dispatch(script) => Handles(st, st.timers.fired[0]) ==> AllCareful(Handling(st), script)
  }

  lemma {:induction false} ScriptSafe(st: Loop, script: seq<Action>)
    requires Inv(st) && Safe(st) && CanAll(st, script) && AllCareful(st, script)
    ensures Inv(Script(st, script)) && Safe(Script(st, script)) && st.marks.Keys <= Script(st, script).marks.Keys
    decreases |script|
  {
    hide Inv, Safe, Act, Can, CarefulAct;
    if script != [] {
      ActInv(st, script[0]);
      ActSafeIff(st, script[0]);
      ScriptSafe(Act(st, script[0]), script[1..]);
    }
  }

  lemma HandlingSafe(st: Loop)
    requires Inv(st) && Safe(st) && st.timers.fired != [] && Handles(st, st.timers.fired[0]) && st.running == []
    ensures Safe(Handling(st))
  {
    hide Entries, Filed;
    TakingEntries(st);
    SameEntries(Handling(st), Taking(st));
    forall x | x in st.marks ensures EntrySafe(Handling(st), x) {
      assert EntrySafe(st, x);
    }
  }

  lemma FinishSafe(st: Loop, e: TimerEvent)
    requires Inv(st) && Safe(st) && st.running == [e] && e in st.marks
    ensures Safe(Finish(st, e))
  {
    hide Entries, Filed;
    var t := Finish(st, e);
    SameEntries(st, t);
    forall x | x in t.marks ensures EntrySafe(t, x) {
      assert EntrySafe(st, x) && MarksOk(st, x);
    }
  }

  lemma DispatchSafe(st: Loop, script: seq<Action>)
    requires Between(st) && Safe(st) && Dispatches(st, script)
    requires Handles(st, st.timers.fired[0]) ==> AllCareful(Handling(st), script)
    ensures Safe(DispatchOne(st, script))
  {
    hide Entries, Distinct, Script, CanAll, AllCareful;
    var e := st.timers.fired[0];
    if Handles(st, e) {
      HandlingInv(st);
      HandlingSafe(st);
      ScriptSafe(Handling(st), script);
      FinishSafe(Script(Handling(st), script), e);
    } else {
      var t := DispatchOne(st, script);
      TakingEntries(st);
      SameEntries(t, Taking(st));
      forall x | x in t.marks ensures EntrySafe(t, x) {
        assert EntrySafe(st, x) && EntrySafe(st, e) && MarksOk(st, x);
      }
    }
  }

  lemma MergeSafe(st: Loop)
    requires Inv(st) && Safe(st)
    ensures Safe(Merge(st))
  {
    hide Entries;
    MergeInv(st);
    forall x | x in st.marks ensures EntrySafe(Merge(st), x) {
      assert EntrySafe(st, x);
    }
  }

  lemma NextSafe(st: Loop, step: Step)
    requires Between(st) && Safe(st) && Takes(st, step) && Careful(st, step)
    ensures Between(Next(st, step)) && Safe(Next(st, step))
  {
    hide Inv, Safe, Act, DispatchOne, Launched, Can, Dispatches, CarefulAct, CarefulLaunch, AllCareful, Handles;
    NextInv(st, step);
    match step {
      case Do(a) => ActSafeIff(st, a);
      case MergeWaiting => MergeSafe(st);
      case Launching(last, clock) => LaunchSafeIff(st, last, clock);
      case Dispatch(script) => DispatchSafe(st, script);
    }
  }

  // ---------------------------------------------------------------- runs

  ghost predicate Runs(st: Loop, steps: seq<Step>)
    decreases |steps|
  {
    steps == [] || (Takes(st, steps[0]) && Runs(Next(st, steps[0]), steps[1..]))
  }

  ghost predicate RunsCareful(st: Loop, steps: seq<Step>)
    requires Runs(st, steps)
    decreases |steps|
  {
    steps == [] || (Careful(st, steps[0]) && RunsCareful(Next(st, steps[0]), steps[1..]))
  }

  ghost function After(st: Loop, steps: seq<Step>): Loop
    requires Runs(st, steps)
    decreases |steps|
  {
    if steps == [] then st else After(Next(st, steps[0]), steps[1..])
  }

  function Start(): Loop { Loop(State([], map[], map[], 0, [], 0), map[], [], []) }

  lemma StartSafe()
    ensures Between(Start()) && Safe(Start())
  {
  }

  /** In every careful run no entry of a timer outlives its place in the timer map. */
  lemma {:induction false} RunSafe(st: Loop, steps: seq<Step>)
    requires Between(st) && Safe(st) && Runs(st, steps) && RunsCareful(st, steps)
    ensures Between(After(st, steps)) && Safe(After(st, steps))
    decreases |steps|
  {
    hide Inv, Safe, Next, Takes, Careful;
    if steps != [] {
      NextSafe(st, steps[0]);
      RunSafe(Next(st, steps[0]), steps[1..]);
    }
  }

  // ---------------------------------------------------------------- what `Safe` is worth

  predicate AllOwned(st: Loop) { forall e | e in Entries(st) :: Owned(st, e) }

  /** The loop goes on with what it has, and handlers do nothing. */
  predicate Idle(step: Step) { step == MergeWaiting || step == Dispatch([]) }

  predicate AllIdle(steps: seq<Step>) { forall k | 0 <= k < |steps| :: Idle(steps[k]) }

  lemma {:induction false} IdleSafe(st: Loop, steps: seq<Step>)
    requires Between(st) && Safe(st) && Runs(st, steps) && AllIdle(steps)
    ensures AllOwned(After(st, steps))
    decreases |steps|
  {
    hide Inv, Safe, Next, Takes;
    if steps == [] {
      SafeOwned(st);
    } else {
      assert Idle(steps[0]);
      assert Careful(st, steps[0]);
      NextSafe(st, steps[0]);
      assert forall k | 0 <= k < |steps[1..]| :: steps[1..][k] == steps[k + 1];
      IdleSafe(Next(st, steps[0]), steps[1..]);
    }
  }

  lemma SafeOwned(st: Loop)
    requires Inv(st) && Safe(st)
    ensures AllOwned(st)
  {
    hide Entries, Distinct;
    forall e | e in Entries(st) ensures Owned(st, e) {
      assert EntrySafe(st, e);
    }
  }

  /** A cancelled timer with two entries is on its way. */
  predicate Twice(st: Loop, e: TimerEvent) {
    Between(st) && e in st.timers.fired && Pending(st, e) && Owned(st, e) && 2 <= Entries(st)[e]
  }

  /** Dispatching its first entry leaves the second without an owner. */
  lemma TwiceStep(st: Loop, e: TimerEvent)
    requires Twice(st, e)
    ensures Dispatches(st, []) && |DispatchOne(st, []).timers.fired| < |st.timers.fired|
    ensures st.timers.fired[0] == e ==> !AllOwned(DispatchOne(st, []))
    ensures st.timers.fired[0] != e && Owned(st, st.timers.fired[0]) ==> Twice(DispatchOne(st, []), e)
  {
    hide Entries, Distinct;
    var f := st.timers.fired[0];
    assert f in Entries(st) by { TakingEntries(st); }
    if Handles(st, f) { HandlingInv(st); }
    var t := DispatchOne(st, []);
    DispatchInv(st, []);
    TakingEntries(st);
    SameEntries(t, Taking(st));
    assert MarksOk(st, f) && MarksOk(st, e);
    assert st.timers.fired == [f] + st.timers.fired[1..];
    if f == e {
      assert e in Entries(t) && !Owned(t, e);
    }
  }

  lemma {:induction false} TwiceDangles(st: Loop, e: TimerEvent) returns (steps: seq<Step>)
    requires Twice(st, e)
    ensures Runs(st, steps) && AllIdle(steps) && !AllOwned(After(st, steps))
    decreases |st.timers.fired|
  {
    hide Twice, DispatchOne, Dispatches, Owned;
    var f := FirstOf(st, e);
    if !Owned(st, f) {
      assert !AllOwned(st) by { assert f in Entries(st); }
      steps := [];
    } else {
      TwiceStep(st, e);
      var t := DispatchOne(st, []);
      var more := [];
      if f != e {
        more := TwiceDangles(t, e);
      }
      assert Takes(st, Dispatch([])) && Next(st, Dispatch([])) == t;
      RunCons(st, Dispatch([]), more);
      steps := [Dispatch([])] + more;
    }
  }

  lemma FirstOf(st: Loop, e: TimerEvent) returns (f: TimerEvent)
    requires Twice(st, e)
    ensures st.timers.fired != [] && f == st.timers.fired[0] && f in Entries(st)
  {
    f := st.timers.fired[0];
    TakingEntries(st);
  }

  lemma RunCons(st: Loop, step: Step, steps: seq<Step>)
    requires Takes(st, step) && Runs(Next(st, step), steps)
    ensures Runs(st, [step] + steps) && After(st, [step] + steps) == After(Next(st, step), steps)
  {
    hide Takes, Next;
    assert ([step] + steps)[0] == step && ([step] + steps)[1..] == steps;
  }

  /** Between steps the loop is safe if and only if, however it merges and dispatches what it
      has, every entry is owned. */
  lemma SafeIff(st: Loop)
    requires Between(st)
    ensures Safe(st) <==> forall steps | Runs(st, steps) && AllIdle(steps) :: AllOwned(After(st, steps))
  {
    hide Entries, Runs, After, AllOwned, AllIdle, Filed;
    if Safe(st) {
      forall steps | Runs(st, steps) && AllIdle(steps) ensures AllOwned(After(st, steps)) {
        IdleSafe(st, steps);
      }
    } else {
      var e :| e in st.marks && !EntrySafe(st, e);
      var steps := UnsafeDangles(st, e);
    }
  }

  lemma UnsafeDangles(st: Loop, e: TimerEvent) returns (steps: seq<Step>)
    requires Between(st) && e in st.marks && !EntrySafe(st, e)
    ensures Runs(st, steps) && AllIdle(steps) && !AllOwned(After(st, steps))
  {
    hide Inv, Runs, After;
    if !Owned(st, e) {
      steps := [];
      assert !AllOwned(st) && Runs(st, []) && After(st, []) == st by { EmptyRun(st); }
    } else {
      MergeInv(st);
      assert e in Merge(st).timers.fired by { MergedIn(st, e); }
      var more := TwiceDangles(Merge(st), e);
      RunCons(st, MergeWaiting, more);
      steps := [MergeWaiting] + more;
    }
  }

  lemma EmptyRun(st: Loop)
    ensures Runs(st, []) && After(st, []) == st
  {
  }

  lemma MergedIn(st: Loop, e: TimerEvent)
    requires e in Entries(st)
    ensures e in Merge(st).timers.fired
  {
  }

  // ---------------------------------------------------------------- fate of a cancelled timer

  lemma {:induction false} ScriptOnHandled(st: Loop, script: seq<Action>, e: TimerEvent)
    requires CanAll(st, script) && e in st.marks && st.marks[e] in {Marks(0, true), Marks(1, false)}
    ensures var t := Script(st, script);
      && e in t.marks && Owned(t, e) == Owned(st, e)
      && t.marks[e] == if CancelEvent(e) in script then Marks(1, false) else st.marks[e]
    decreases |script|
  {
    hide Push;
    if script != [] {
      ScriptOnHandled(Act(st, script[0]), script[1..], e);
    }
  }

  /** A handler that cancels its own timer leaves it with an empty queue: `PopCurEv` takes the
      CANCEL, so that no entry of the timer deletes it. */
  lemma HandlerFate(st: Loop, script: seq<Action>)
    requires Between(st) && Dispatches(st, script) && Handles(st, st.timers.fired[0])
    ensures var e, t := st.timers.fired[0], DispatchOne(st, script);
      && e in t.marks && t.running == [] && Owned(t, e) == Owned(st, e)
      && t.marks[e] == Marks(0, CancelEvent(e) !in script)
  {
    hide Filed, Script, CanAll;
    ScriptOnHandled(Handling(st), script, st.timers.fired[0]);
  }

  /** Cancelled, and in the map or with its CANCEL still in its queue. */
  predicate Detached(st: Loop, e: TimerEvent) {
    && e in st.marks && !st.marks[e].attached && e !in st.running
    && (Owned(st, e) || st.marks[e].cancels == 1)
  }

  lemma {:induction false} ScriptOnDetached(st: Loop, script: seq<Action>, e: TimerEvent)
    requires CanAll(st, script) && Detached(st, e)
    ensures var t := Script(st, script); Detached(t, e) && t.marks[e] == st.marks[e] && Owned(t, e) == Owned(st, e)
    decreases |script|
  {
    hide Push;
    if script != [] {
      ScriptOnDetached(Act(st, script[0]), script[1..], e);
    }
  }

  /** The step dispatches an entry of `e` and its CANCEL. */
  predicate Deletes(st: Loop, step: Step, e: TimerEvent)
    requires e in st.marks
  {
    step.Dispatch? && st.timers.fired != [] && st.timers.fired[0] == e && 0 < st.marks[e].cancels
  }

  /** The step is a launch that takes a due, suspended timer without loop out of the map. */
  ghost predicate Drops(st: Loop, step: Step, e: TimerEvent)
    requires Takes(st, step)
  {
    step.Launching? && e.id in Disowned(st.timers, Launch(st.timers, step.last, step.clock), step.last)
  }

  /** After its cancellation no step handles a timer, what it holds is frozen, and only its CANCEL
      or a launch that drops it takes it from the map. */
  lemma StepOnDetached(st: Loop, step: Step, e: TimerEvent)
    requires Between(st) && Safe(st) && Takes(st, step) && Detached(st, e)
    ensures !Handles(st, e)
    ensures var t := Next(st, step);
      && e in t.marks && t.marks[e] == st.marks[e] && t.running == []
      && Owned(t, e) == (Owned(st, e) && !Deletes(st, step, e) && !Drops(st, step, e))
  {
    hide Launch, Script, CanAll, Distinct, Paced, Disowned, Push;
    match step {
      case Do(a) =>
        OneAction(st, a);
        ScriptOnDetached(st, [a], e);
      case MergeWaiting =>
      case Launching(last, clock) => LaunchedIs(st, last, clock);
      case Dispatch(script) =>
        var f := st.timers.fired[0];
        if Handles(st, f) {
          ScriptOnDetached(Handling(st), script, e);
        } else {
          TakingEntries(st);
          assert EntrySafe(st, f);
        }
    }
  }

  lemma OneAction(st: Loop, a: Action)
    requires Can(st, a)
    ensures CanAll(st, [a]) && Script(st, [a]) == Act(st, a)
  {
    assert CanAll(Act(st, a), []) && Script(Act(st, a), []) == Act(st, a);
  }

  /** No launch of the run takes the timer out of the map. */
  ghost predicate Undropped(st: Loop, steps: seq<Step>, e: TimerEvent)
    requires Runs(st, steps)
    decreases |steps|
  {
    steps == [] || (!Drops(st, steps[0], e) && Undropped(Next(st, steps[0]), steps[1..], e))
  }

  /** A timer that cancelled itself is never deleted in any careful run, unless a launch drops it:
      it keeps its place in the map, and so cannot be registered or handled again. */
  lemma {:induction false} LostForever(st: Loop, steps: seq<Step>, e: TimerEvent)
    requires Between(st) && Safe(st) && Runs(st, steps) && RunsCareful(st, steps) && Undropped(st, steps, e)
    requires e in st.marks && st.marks[e] == Marks(0, false) && Owned(st, e)
    ensures var t := After(st, steps); e in t.marks && t.marks[e] == Marks(0, false) && Owned(t, e)
    decreases |steps|
  {
    hide Filed, Safe, Next, Takes, Careful, Drops, MarksOk;
    if steps != [] {
      NextSafe(st, steps[0]);
      StepOnDetached(st, steps[0], e);
      LostForever(Next(st, steps[0]), steps[1..], e);
    }
  }

  predicate AllDispatch(steps: seq<Step>) { forall k | 0 <= k < |steps| :: steps[k].Dispatch? }

  lemma {:induction false} ScriptWaiting(st: Loop, script: seq<Action>, e: TimerEvent)
    requires CanAll(st, script) && Detached(st, e) && e !in st.waiting
    ensures e !in Script(st, script).waiting
    decreases |script|
  {
    hide Push;
    if script != [] {
      ScriptOnDetached(st, [script[0]], e);
      OneAction(st, script[0]);
      ScriptWaiting(Act(st, script[0]), script[1..], e);
    }
  }

  lemma DispatchWaiting(st: Loop, script: seq<Action>, e: TimerEvent)
    requires Dispatches(st, script) && Detached(st, e) && st.running == [] && e !in st.waiting
    ensures e !in DispatchOne(st, script).waiting
  {
    hide Script, CanAll;
    if Handles(st, st.timers.fired[0]) {
      assert Detached(Handling(st), e);
      ScriptWaiting(Handling(st), script, e);
    }
  }

  /** `ProcessActiveEvent` deletes a cancelled timer that is on the active list. */
  lemma {:induction false} PassDeletes(st: Loop, steps: seq<Step>, e: TimerEvent)
    requires Between(st) && Safe(st) && Runs(st, steps) && RunsCareful(st, steps) && AllDispatch(steps)
    requires e in st.marks && st.marks[e] == Marks(1, false) && e !in st.waiting
    requires After(st, steps).timers.fired == []
    ensures var t := After(st, steps); e in t.marks && t.marks[e] == Marks(1, false) && !Owned(t, e)
    decreases |steps|
  {
    hide Filed, Safe, DispatchOne, Careful, Drops, Dispatches;
    if steps == [] {
      assert MarksOk(st, e);
    } else {
      assert steps[0].Dispatch?;
      NextSafe(st, steps[0]);
      StepOnDetached(st, steps[0], e);
      DispatchWaiting(st, steps[0].script, e);
      assert forall k | 0 <= k < |steps[1..]| :: steps[1..][k] == steps[k + 1];
      PassDeletes(Next(st, steps[0]), steps[1..], e);
    }
  }

  /** So a timer that is cancelled elsewhere than in its handler is deleted by the next careful
      iteration of the loop, whatever other handlers do in it. */
  lemma IterationDeletes(st: Loop, last: nat, clock: nat -> nat, pass: seq<Step>, e: TimerEvent)
    requires Between(st) && Safe(st) && e in st.marks && st.marks[e] == Marks(1, false)
    requires Ticks(clock, last) && Paced(Merge(st).timers, last) && CarefulLaunch(Merge(st), last, clock)
    requires var l := Launched(Merge(st), last, clock);
      Runs(l, pass) && RunsCareful(l, pass) && AllDispatch(pass) && After(l, pass).timers.fired == []
    ensures var t := After(Launched(Merge(st), last, clock), pass);
      e in t.marks && t.marks[e] == Marks(1, false) && !Owned(t, e)
  {
    hide Inv, Safe, Launch, Paced, CarefulLaunch;
    NextSafe(st, MergeWaiting);
    var m := Merge(st);
    var step := Launching(last, clock);
    NextSafe(m, step);
    LaunchedRest(m, last, clock);
    PassDeletes(Launched(m, last, clock), pass, e);
  }

  // ---------------------------------------------------------------- careful launches

  predicate Firing(st: State, last: nat, e: TimerEvent) { Due(st, last, e) && !st.live[e].suspended }

  /** The ids of what is due, suspended and does not loop. */
  function Dropping(st: State, last: nat): set<int> {
    set e | e in st.heap && Due(st, last, e) && st.live[e].suspended && !st.live[e].loop :: e.id
  }

  /** The same in terms of what is due: what will fire is in the map and not cancelled, and what
      will be dropped has no entry. */
  predicate CarefulDue(st: Loop, last: nat) {
    && (forall e | e in st.timers.heap && Firing(st.timers, last, e) :: Owned(st, e) && !Pending(st, e))
    && (forall e | e in st.marks && (e in Entries(st) || Firing(st.timers, last, e)) :: e.id !in Dropping(st.timers, last))
  }

  lemma DisownsDropping(st: State, last: nat, clock: nat -> nat)
    requires Good(st) && Ticks(clock, last) && Paced(st, last)
    ensures Disowned(st, Launch(st, last, clock), last) == Dropping(st, last)
  {
    hide Launch, IsHeap, Distinct;
    LaunchExact(st, last, clock);
  }

  /** With no expired entries in the heap a launch keeps the loop safe if and only if that holds. */
  lemma LaunchSafeWhenDue(st: Loop, last: nat, clock: nat -> nat)
    requires Between(st) && Safe(st) && Ticks(clock, last) && Paced(st.timers, last) && Good(st.timers)
    ensures Safe(Launched(st, last, clock)) <==> CarefulDue(st, last)
  {
    hide Inv, Safe, Launch, Launched, Fires, Entries, Paced, Good, Owned, Pending, Disowned, Dropping;
    LaunchSafeIff(st, last, clock);
    DisownsDropping(st.timers, last, clock);
    LaunchFires(st.timers, last, clock);
    assert forall e :: e in Fires(st.timers, last, clock) <==> Firing(st.timers, last, e);
    assert forall e :: Firing(st.timers, last, e) ==> e in st.timers.heap;
  }

  /** Where the next launch is safe, cancelling a registered timer that has no entry keeps it so
      if and only if that launch neither fires the timer nor drops it. */
  lemma CancelBeforeLaunchIff(st: Loop, e: TimerEvent, last: nat, clock: nat -> nat)
    requires Between(st) && Safe(st) && Ticks(clock, last) && Paced(st.timers, last) && Good(st.timers)
    requires e in st.marks && st.marks[e].attached && Owned(st, e) && e !in Entries(st)
    requires Safe(Launched(st, last, clock))
    ensures Safe(DoCancel(st, e))
    ensures Safe(Launched(DoCancel(st, e), last, clock))
            <==> !Firing(st.timers, last, e) && e.id !in Dropping(st.timers, last)
  {
    hide Filed, Safe, Launch, Launched, Entries, Paced, Good, Owned, Dropping, Firing;
    var c := DoCancel(st, e);
    assert Can(st, CancelEvent(e)) && Act(st, CancelEvent(e)) == c by { OwnedLives(st, e); }
    ActInv(st, CancelEvent(e));
    CancelSafeIff(st, e);
    LaunchSafeWhenDue(st, last, clock);
    LaunchSafeWhenDue(c, last, clock);
    assert MarksOk(st, e);
    WaitingMore(st, c, e);
    FiringInHeap(st.timers, last, e);
    assert forall x :: Owned(c, x) == Owned(st, x) by { SameOwners(st, c); }
  }

  lemma OwnedLives(st: Loop, e: TimerEvent)
    requires Filed(st) && Owned(st, e)
    ensures e in st.timers.live
  {
    hide Entries, Distinct;
  }

  lemma FiringInHeap(st: State, last: nat, e: TimerEvent)
    ensures Firing(st, last, e) ==> e in st.heap
  {
  }

  lemma SameOwners(st: Loop, t: Loop)
    requires st.timers.owned == t.timers.owned
    ensures forall x :: Owned(t, x) == Owned(st, x)
  {
  }

  // ---------------------------------------------------------------- which timers are handled

  /** The timers whose handler the pass over the active list calls, in order. */
  function Handled(st: Loop, scripts: seq<seq<Action>>): seq<TimerEvent>
    requires Works(st, scripts)
    decreases |st.timers.fired|
  {
    if st.timers.fired == [] then [] else
    var e := st.timers.fired[0];
    (if Handles(st, e) then [e] else []) + Handled(DispatchOne(st, First(scripts)), Others(scripts))
  }

  function First(scripts: seq<seq<Action>>): seq<Action> { if scripts == [] then [] else scripts[0] }

  function Others(scripts: seq<seq<Action>>): seq<seq<Action>> { if scripts == [] then [] else scripts[1..] }

  predicate Works(st: Loop, scripts: seq<seq<Action>>)
    decreases |st.timers.fired|
  {
    st.timers.fired == [] || (
      && Dispatches(st, First(scripts))
      && Works(DispatchOne(st, First(scripts)), Others(scripts)))
  }

  predicate NoCancel(script: seq<Action>) { forall k | 0 <= k < |script| :: !script[k].CancelEvent? }

  predicate NoCancels(scripts: seq<seq<Action>>) { forall k | 0 <= k < |scripts| :: NoCancel(scripts[k]) }

  /** Those of `es` that are registered. */
  function Registered(marks: map<TimerEvent, Marks>, es: seq<TimerEvent>): seq<TimerEvent> {
    if es == [] then [] else
    (if es[0] in marks && marks[es[0]].attached then [es[0]] else []) + Registered(marks, es[1..])
  }

  lemma {:induction false} RegisteredSame(a: map<TimerEvent, Marks>, b: map<TimerEvent, Marks>, es: seq<TimerEvent>)
    requires forall e | e in es :: e in a && e in b && a[e].attached == b[e].attached
    ensures Registered(a, es) == Registered(b, es)
  {
    if es != [] { RegisteredSame(a, b, es[1..]); }
  }

  lemma {:induction false} ScriptKeepsMarks(st: Loop, script: seq<Action>, e: TimerEvent)
    requires CanAll(st, script) && NoCancel(script) && e in st.marks && Owned(st, e)
    ensures var t := Script(st, script); e in t.marks && t.marks[e] == st.marks[e] && Owned(t, e)
    decreases |script|
  {
    hide Push;
    if script != [] {
      assert !script[0].CancelEvent?;
      assert forall k | 0 <= k < |script[1..]| :: script[1..][k] == script[k + 1];
      ScriptKeepsMarks(Act(st, script[0]), script[1..], e);
    }
  }

  lemma {:induction false} NoCancelCareful(st: Loop, script: seq<Action>)
    requires CanAll(st, script) && NoCancel(script)
    ensures AllCareful(st, script)
    decreases |script|
  {
    hide Act, Can;
    if script != [] {
      assert !script[0].CancelEvent?;
      assert forall k | 0 <= k < |script[1..]| :: script[1..][k] == script[k + 1];
      NoCancelCareful(Act(st, script[0]), script[1..]);
    }
  }

  lemma ActiveSafe(st: Loop, e: TimerEvent)
    requires Between(st) && Safe(st) && e in st.timers.fired
    ensures e in st.marks && Owned(st, e) && MarksOk(st, e)
  {
    hide Distinct;
    assert e in Entries(st);
    assert EntrySafe(st, e);
  }

  /** After a handler that cancels nothing the entries behind it are registered as before. */
  lemma DispatchKeepsMarks(st: Loop, script: seq<Action>, e: TimerEvent)
    requires Between(st) && Safe(st) && Dispatches(st, script) && NoCancel(script) && e in st.timers.fired
    ensures var t := DispatchOne(st, script); e in t.marks && t.marks[e].attached == st.marks[e].attached
  {
    hide Entries, Distinct, Script, CanAll;
    ActiveSafe(st, e);
    var f := st.timers.fired[0];
    if Handles(st, f) {
      ScriptKeepsMarks(Handling(st), script, e);
    }
  }

  /** A safe pass whose handlers cancel nothing calls the handlers of exactly the listed timers that
      are registered, each as often as it is listed, in order. */
  lemma {:induction false} HandledIs(st: Loop, scripts: seq<seq<Action>>)
    requires Between(st) && Safe(st) && Works(st, scripts) && NoCancels(scripts)
    ensures Handled(st, scripts) == Registered(st.marks, st.timers.fired)
    decreases |st.timers.fired|
  {
    hide Filed, Safe, MarksOk, DispatchOne, Dispatches, CanAll, AllCareful;
    if st.timers.fired != [] {
      var e, rest := st.timers.fired[0], st.timers.fired[1..];
      var script := First(scripts);
      var t := DispatchOne(st, script);
      DispatchInv(st, script);
      PassSafe(st, script);
      forall x | x in rest ensures x in st.marks && x in t.marks && st.marks[x].attached == t.marks[x].attached {
        assert x in st.timers.fired;
        ActiveSafe(st, x);
        DispatchKeepsMarks(st, script, x);
      }
      RegisteredSame(st.marks, t.marks, rest);
      assert forall k | 0 <= k < |Others(scripts)| :: Others(scripts)[k] == scripts[k + 1];
      HandledIs(t, Others(scripts));
      HandlesIff(st, e);
    }
  }

  lemma PassSafe(st: Loop, script: seq<Action>)
    requires Between(st) && Safe(st) && Dispatches(st, script) && NoCancel(script)
    ensures Safe(DispatchOne(st, script))
  {
    hide Filed, Safe, MarksOk, Script, CanAll, AllCareful, DispatchOne;
    if Handles(st, st.timers.fired[0]) { NoCancelCareful(Handling(st), script); }
    DispatchSafe(st, script);
  }

  lemma HandlesIff(st: Loop, e: TimerEvent)
    requires Between(st) && Safe(st) && st.timers.fired != [] && st.timers.fired[0] == e
    ensures Handles(st, e) <==> e in st.marks && st.marks[e].attached
  {
    ActiveSafe(st, e);
  }

  lemma {:induction false} RegisteredConcat(marks: map<TimerEvent, Marks>, a: seq<TimerEvent>, b: seq<TimerEvent>)
    ensures Registered(marks, a + b) == Registered(marks, a) + Registered(marks, b)
  {
    if a == [] {
      assert a + b == b;
    } else {
      assert (a + b)[0] == a[0] && (a + b)[1..] == a[1..] + b;
      RegisteredConcat(marks, a[1..], b);
    }
  }

  /** So an iteration whose launch is careful and whose handlers cancel nothing handles, after what
      was listed before, what the launch fires and is registered, in the order of the launch. */
  lemma IterationHandles(st: Loop, last: nat, clock: nat -> nat, scripts: seq<seq<Action>>)
    requires Between(st) && Safe(st) && NoCancels(scripts)
    requires Ticks(clock, last) && Paced(Merge(st).timers, last) && CarefulLaunch(Merge(st), last, clock)
    requires Works(Launched(Merge(st), last, clock), scripts)
    ensures Handled(Launched(Merge(st), last, clock), scripts) ==
      Registered(st.marks, st.waiting + st.timers.fired) + Registered(st.marks, Fires(Merge(st).timers, last, clock))
  {
    hide Inv, Safe, Launch, Fires, Paced, CarefulLaunch, Works, Handled, Registered;
    NextSafe(st, MergeWaiting);
    var m := Merge(st);
    var l := Launched(m, last, clock);
    NextSafe(m, Launching(last, clock));
    LaunchedRest(m, last, clock);
    LaunchAppends(m.timers, last, clock);
    HandledIs(l, scripts);
    RegisteredConcat(st.marks, st.waiting + st.timers.fired, Fires(m.timers, last, clock));
  }

  /** A timer that has just been registered is handled by the next iteration if its launch fires it. */
  lemma RegisterHandles(st: Loop, e: TimerEvent, last: nat, clock: nat -> nat, scripts: seq<seq<Action>>)
    requires Between(st) && Safe(st) && Can(st, Register(e)) && Registers(st, e) && NoCancels(scripts)
    requires var m := Merge(Act(st, Register(e)));
      && Ticks(clock, last) && Paced(m.timers, last) && CarefulLaunch(m, last, clock)
      && Works(Launched(m, last, clock), scripts) && e in Fires(m.timers, last, clock)
    ensures e in Handled(Launched(Merge(Act(st, Register(e))), last, clock), scripts)
  {
    hide Filed, Safe, Launch, Fires, Paced, CarefulLaunch, Works, Handled, Registered, AddTimer, MarksOk;
    var r := Act(st, Register(e));
    NextSafe(st, Do(Register(e)));
    IterationHandles(r, last, clock, scripts);
    RegisteredIn(r.marks, Fires(Merge(r).timers, last, clock), e);
  }

  lemma {:induction false} RegisteredIn(marks: map<TimerEvent, Marks>, es: seq<TimerEvent>, e: TimerEvent)
    requires e in es && e in marks && marks[e].attached
    ensures e in Registered(marks, es)
  {
    if es[0] != e { RegisteredIn(marks, es[1..], e); }
  }
}
