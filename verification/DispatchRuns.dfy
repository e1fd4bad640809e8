/** Iterations of `EventCentre::EventLoop`, and what becomes of a cancelled event. */
module DispatchRuns {

  import opened Dispatch

  datatype Readiness = Readiness(fd: int, m: Mask)

  function First(scripts: seq<seq<Action>>): seq<Action> { if scripts == [] then [] else scripts[0] }

  function Others(scripts: seq<seq<Action>>): seq<seq<Action>> { if scripts == [] then [] else scripts[1..] }

  /** `Poller::Launch` reports what is ready, in order. */
  function PollAll(st: Loop, ready: seq<Readiness>): (t: Loop)
    requires OwnersKnown(st)
    ensures OwnersKnown(t) && t.info.Keys == st.info.Keys
    decreases |ready|
  {
    if ready == [] then st else PollAll(Poll(st, ready[0].fd, ready[0].m), ready[1..])
  }

  /** Each handler acts on known events and registers fresh ones. Handlers without a script
      do nothing. */
  predicate Works(st: Loop, scripts: seq<seq<Action>>)
    requires OwnersKnown(st)
    decreases |st.active|
  {
    st.active == [] || (
      && Takes(st, Dispatch(First(scripts)))
      && Works(DispatchOne(st, First(scripts)), Others(scripts)))
  }

  /** `ProcessActiveEvent`. */
  function DispatchAll(st: Loop, scripts: seq<seq<Action>>): (t: Loop)
    requires OwnersKnown(st) && Works(st, scripts)
    ensures OwnersKnown(t) && t.info.Keys == st.info.Keys && t.active == []
    decreases |st.active|
  {
    if st.active == [] then st else DispatchAll(DispatchOne(st, First(scripts)), Others(scripts))
  }

  /** What one iteration hands to `ProcessActiveEvent`. */
  function Polled(st: Loop, ready: seq<Readiness>): (t: Loop)
    requires OwnersKnown(st)
    ensures OwnersKnown(t) && t.info.Keys == st.info.Keys
  {
    PollAll(Merge(st), ready)
  }

  /** One iteration of `EventLoop`. */
  function Iteration(st: Loop, ready: seq<Readiness>, scripts: seq<seq<Action>>): (t: Loop)
    requires OwnersKnown(st) && Works(Polled(st, ready), scripts)
    ensures OwnersKnown(t) && t.info.Keys == st.info.Keys && t.active == []
  {
    DispatchAll(Polled(st, ready), scripts)
  }

  lemma {:induction false} PollAllKeeps(st: Loop, ready: seq<Readiness>)
    requires Between(st)
    ensures Between(PollAll(st, ready))
    decreases |ready|
  {
    hide EventsOk, InterestOk, RunningOk, Poll;
    if ready != [] {
      NextKeeps(st, Report(ready[0].fd, ready[0].m));
      PollAllKeeps(Poll(st, ready[0].fd, ready[0].m), ready[1..]);
    }
  }

  lemma {:induction false} DispatchAllKeeps(st: Loop, scripts: seq<seq<Action>>)
    requires Between(st) && Works(st, scripts)
    ensures Between(DispatchAll(st, scripts))
    decreases |st.active|
  {
    hide EventsOk, InterestOk, RunningOk, DispatchOne, FreshAll, Handles;
    if st.active != [] {
      NextKeeps(st, Dispatch(First(scripts)));
      DispatchAllKeeps(DispatchOne(st, First(scripts)), Others(scripts));
    }
  }

  lemma PolledKeeps(st: Loop, ready: seq<Readiness>)
    requires Between(st)
    ensures Between(Polled(st, ready))
  {
    hide EventsOk, InterestOk, RunningOk;
    NextKeeps(st, MergeWaiting);
    PollAllKeeps(Merge(st), ready);
  }

  /** An iteration of the loop keeps the invariant and leaves nothing undispatched. */
  lemma IterationKeeps(st: Loop, ready: seq<Readiness>, scripts: seq<seq<Action>>)
    requires Between(st) && Works(Polled(st, ready), scripts)
    ensures Between(Iteration(st, ready, scripts)) && Iteration(st, ready, scripts).active == []
  {
    hide EventsOk, InterestOk, RunningOk, Works, DispatchAll, Polled;
    PolledKeeps(st, ready);
    DispatchAllKeeps(Polled(st, ready), scripts);
  }

  // ---------------------------------------------------------------- fate of a cancelled event

  /** The front of the event's queue is CANCEL, and it still cares for I/O. */
  predicate Deletable(i: Info) { i.queue != [] && Cancel in i.queue[0] && i.mask * IO != {} }

  lemma {:induction false} PollAllOnGone(st: Loop, ready: seq<Readiness>, e: Event)
    requires Between(st) && Gone(st, e)
    ensures var t := PollAll(st, ready);
      && t.info[e] == st.info[e] && Owned(t, e) == Owned(st, e)
      && (e in t.active <==> e in st.active)
    decreases |ready|
  {
    hide EventsOk, InterestOk, RunningOk, Owned;
    if ready != [] {
      var r := ready[0];
      NextKeeps(st, Report(r.fd, r.m));
      StepOnGone(st, Report(r.fd, r.m), e);
      PollAllOnGone(Poll(st, r.fd, r.m), ready[1..], e);
    }
  }

  /** A pass over the active list deletes a cancelled event just when the event is listed
      there and its queue starts with CANCEL; otherwise it leaves it as it was. */
  lemma {:induction false} DispatchAllFate(st: Loop, scripts: seq<seq<Action>>, e: Event)
    requires Between(st) && Works(st, scripts) && Gone(st, e) && Owned(st, e)
    ensures var t := DispatchAll(st, scripts);
      && t.info[e] == st.info[e]
      && Owned(t, e) == !(e in st.active && Deletable(st.info[e]))
    decreases |st.active|
  {
    hide EventsOk, InterestOk, RunningOk, Owned, FreshAll, Handles, Next, DispatchOne, Cancelled;
    if st.active != [] {
      var step := Dispatch(First(scripts));
      var t := DispatchOne(st, First(scripts));
      NextIs(st, step);
      NextKeeps(st, step);
      StepOnGone(st, step, e);
      assert st.active == [st.active[0]] + t.active;
      if Owned(t, e) {
        DispatchAllFate(t, Others(scripts), e);
      } else {
        DispatchAllOnDead(t, Others(scripts), e);
      }
    }
  }

  lemma NextIs(st: Loop, step: Step)
    requires OwnersKnown(st) && Takes(st, step) && step.Dispatch?
    ensures Next(st, step) == DispatchOne(st, step.script)
  {
  }

  lemma {:induction false} DispatchAllOnDead(st: Loop, scripts: seq<seq<Action>>, e: Event)
    requires Between(st) && Works(st, scripts) && Dead(st, e)
    ensures var t := DispatchAll(st, scripts); t.info[e] == st.info[e] && !Owned(t, e)
    decreases |st.active|
  {
    hide EventsOk, InterestOk, RunningOk, Owned, FreshAll, Handles, Next, DispatchOne, Cancelled;
    if st.active != [] {
      var step := Dispatch(First(scripts));
      NextIs(st, step);
      NextKeeps(st, step);
      StepOnGone(st, step, e);
      DispatchAllOnDead(DispatchOne(st, First(scripts)), Others(scripts), e);
    }
  }

  lemma WaitsToDie(st: Loop, e: Event)
    requires Between(st) && st.active == [] && Gone(st, e) && Owned(st, e) && Deletable(st.info[e])
    ensures e in st.waiting
  {
    assert EventOk(st, e);
    assert Listed(st)[e] == multiset(st.waiting)[e];
  }

  /** The next iteration deletes a cancelled event if and only if its queue starts with CANCEL
      and it still cares for I/O; if not, it is stuck, and so in every later run. */
  lemma IterationFate(st: Loop, ready: seq<Readiness>, scripts: seq<seq<Action>>, e: Event)
    requires Between(st) && st.active == [] && Works(Polled(st, ready), scripts)
    requires Gone(st, e) && Owned(st, e)
    ensures var t := Iteration(st, ready, scripts);
      if Deletable(st.info[e]) then Dead(t, e) else Stuck(t, e)
  {
    hide EventsOk, InterestOk, RunningOk, Owned, Works, DispatchAll, PollAll;
    var m := Merge(st);
    NextKeeps(st, MergeWaiting);
    StepOnGone(st, MergeWaiting, e);
    PollAllOnGone(m, ready, e);
    PollAllKeeps(m, ready);
    DispatchAllFate(Polled(st, ready), scripts, e);
    if Deletable(st.info[e]) {
      WaitsToDie(st, e);
    }
  }

  /** `CancelEvent` between iterations: the next one deletes the event if and only if nothing
      of it was undispatched and it cares for I/O. Otherwise no run ever deletes it. */
  lemma CancelFate(st: Loop, ready: seq<Readiness>, scripts: seq<seq<Action>>, e: Event)
    requires Between(st) && st.active == [] && e in st.info && st.info[e].attached
    requires var c := DoCancel(st, e); OwnersKnown(c) && Works(Polled(c, ready), scripts)
    ensures var t := Iteration(DoCancel(st, e), ready, scripts);
      if Listed(st)[e] == 0 && st.info[e].mask * IO != {} then Dead(t, e) else Stuck(t, e)
  {
    hide EventsOk, InterestOk, RunningOk, Owned, Works, DispatchAll, Polled, Act, DoCancel, Iteration, Listed;
    AttachedListed(st, e);
    CancelKeeps(st, e);
    CancelDetaches(st, e);
    CancelMask(st, e);
    IterationFate(DoCancel(st, e), ready, scripts, e);
  }

  lemma AttachedListed(st: Loop, e: Event)
    requires Inv(st) && e in st.info && st.info[e].attached
    ensures Listed(st)[e] == |st.info[e].queue|
    ensures forall k | 0 <= k < |st.info[e].queue| :: Cancel !in st.info[e].queue[k]
  {
    assert EventOk(st, e);
  }

  lemma CancelMask(st: Loop, e: Event)
    requires Inv(st) && e in st.info
    ensures var c := DoCancel(st, e); c.info[e].mask == st.info[e].mask && c.active == st.active && c.running == st.running
  {
  }

  lemma {:induction false} ScriptSplit(st: Loop, a: seq<Action>, b: seq<Action>)
    requires OwnersKnown(st) && KnownAll(st, a) && KnownAll(st, b) && KnownAll(st, a + b) && FreshAll(st, a + b)
    ensures FreshAll(st, a)
    ensures var t := Script(st, a); KnownAll(t, b) && FreshAll(t, b) && Script(st, a + b) == Script(t, b)
    decreases |a|
  {
    hide Act, Fresh;
    if a == [] {
      assert a + b == b;
    } else {
      assert (a + b)[0] == a[0] && (a + b)[1..] == a[1..] + b;
      ScriptSplit(Act(st, a[0]), a[1..], b);
    }
  }

  lemma KnownParts(st: Loop, a: seq<Action>, b: seq<Action>)
    requires KnownAll(st, a + b)
    ensures KnownAll(st, a) && KnownAll(st, b)
  {
    assert forall k | 0 <= k < |a| :: (a + b)[k] == a[k];
    assert forall k | 0 <= k < |b| :: (a + b)[|a| + k] == b[k];
  }

  /** A handler that at some point cancels its own event. */
  function Cancelling(before: seq<Action>, after: seq<Action>, e: Event): seq<Action> {
    before + ([CancelEvent(e)] + after)
  }

  /** What a handler of the first active entry has made of the loop after doing `before`. */
  function Midway(st: Loop, before: seq<Action>): (m: Loop)
    requires OwnersKnown(st) && st.active != [] && KnownAll(st, before)
    ensures OwnersKnown(m) && m.info.Keys == st.info.Keys
    ensures m.active == st.active[1..] && m.running == [st.active[0]]
  {
    Script(Handling(st), before)
  }

  lemma MidwayIs(st: Loop, before: seq<Action>, after: seq<Action>, e: Event)
    requires Between(st) && e in st.info && Handles(st, e) && KnownAll(st, before)
    requires Takes(st, Dispatch(Cancelling(before, after, e)))
    ensures var m := Midway(st, before); var rest := [CancelEvent(e)] + after;
      && Inv(m) && m.info[e].queue != [] && Listed(m)[e] == |m.info[e].queue|
      && KnownAll(m, rest) && FreshAll(m, rest)
      && Script(Handling(st), Cancelling(before, after, e)) == Script(m, rest)
  {
    hide EventsOk, InterestOk, Script, FreshAll, Fresh, Ok, Listed;
    var h, rest := Handling(st), [CancelEvent(e)] + after;
    ListedFirst(st);
    ListedIsOwned(st, e);
    KnownParts(st, before, rest);
    HandlingKeeps(st);
    ScriptSplit(h, before, rest);
    ScriptKeeps(h, before);
  }

  /** `CancelEvent` from the event's own handler, whatever else the handler does before, as long
      as it leaves the event registered, and after: the occurrences that were still to come
      are all that is left before CANCEL. */
  lemma CancelInHandler(st: Loop, before: seq<Action>, after: seq<Action>, e: Event)
    requires Between(st) && e in st.info && Handles(st, e) && KnownAll(st, before)
    requires Takes(st, Dispatch(Cancelling(before, after, e))) && Midway(st, before).info[e].attached
    ensures var m, t := Midway(st, before), DispatchOne(st, Cancelling(before, after, e));
      && Gone(t, e) && Owned(t, e) && t.info[e].mask == m.info[e].mask
      && m.info[e].queue != [] && t.info[e].queue == m.info[e].queue[1..] + [{Cancel}]
  {
    hide EventsOk, InterestOk, RunningOk, Owned, Script, FreshAll, DoCancel, Midway, Cancelling;
    MidwayIs(st, before, after, e);
    var m, rest := Midway(st, before), [CancelEvent(e)] + after;
    assert rest[0] == CancelEvent(e) && rest[1..] == after;
    var c := DoCancel(m, e);
    ScriptFirst(m, rest);
    CancelKeeps(m, e);
    CancelDetaches(m, e);
    CancelMask(m, e);
    ScriptOnGone(c, after, e);
    FinishGone(m, Script(c, after), e);
  }

  lemma ScriptFirst(st: Loop, script: seq<Action>)
    requires OwnersKnown(st) && KnownAll(st, script) && FreshAll(st, script) && script != [] && script[0].CancelEvent?
    ensures var c := DoCancel(st, script[0].e);
      && OwnersKnown(c) && KnownAll(c, script[1..]) && FreshAll(c, script[1..])
      && Script(st, script) == Script(c, script[1..])
  {
  }

  lemma FinishGone(st: Loop, t: Loop, e: Event)
    requires e in st.info && e in t.info && Cancelled(t.info[e]) && st.info[e].queue != []
    requires t.info[e].queue == st.info[e].queue + [{Cancel}]
    ensures var u := Finish(t, e);
      && Gone(u, e) && Owned(u, e) == Owned(t, e) && u.info[e].mask == t.info[e].mask
      && u.info[e].queue == st.info[e].queue[1..] + [{Cancel}]
  {
  }

  /** So an event that cancels itself in its handler is deleted by the next iteration if and only
      if, when it does, the entry being handled is its last and it cares for I/O; otherwise
      no run ever deletes it. */
  lemma CancelInHandlerFate(
      st: Loop, before: seq<Action>, after: seq<Action>, scripts: seq<seq<Action>>,
      ready: seq<Readiness>, scripts': seq<seq<Action>>, e: Event)
    requires Between(st) && e in st.info && Handles(st, e) && KnownAll(st, before)
    requires Takes(st, Dispatch(Cancelling(before, after, e))) && Midway(st, before).info[e].attached
    requires Works(DispatchOne(st, Cancelling(before, after, e)), scripts)
    requires Works(Polled(DispatchAll(DispatchOne(st, Cancelling(before, after, e)), scripts), ready), scripts')
    ensures var m := Midway(st, before);
      var t := Iteration(DispatchAll(DispatchOne(st, Cancelling(before, after, e)), scripts), ready, scripts');
      if Listed(m)[e] == 1 && m.info[e].mask * IO != {} then Dead(t, e) else Stuck(t, e)
  {
    hide EventsOk, InterestOk, RunningOk, Owned, Works, DispatchAll, Polled, DispatchOne, Iteration, Listed, FreshAll,
      Midway, Cancelling, Handles;
    var m, script := Midway(st, before), Cancelling(before, after, e);
    var t := DispatchOne(st, script);
    MidwayIs(st, before, after, e);
    AttachedListed(m, e);
    HandlesFirst(st, e);
    NextIs(st, Dispatch(script));
    NextKeeps(st, Dispatch(script));
    CancelInHandler(st, before, after, e);
    if Listed(m)[e] == 1 {
      OneEntryHere(m, e);
    }
    DispatchAllFate(t, scripts, e);
    DispatchAllKeeps(t, scripts);
    IterationFate(DispatchAll(t, scripts), ready, scripts', e);
  }

  lemma HandlesFirst(st: Loop, e: Event)
    requires e in st.info && Handles(st, e)
    ensures st.active != [] && st.active[0] == e
  {
  }

  lemma OneEntryHere(m: Loop, e: Event)
    requires m.running == [e] && Listed(m)[e] == 1
    ensures e !in m.active
  {
  }

  /** Two reports on a registered event that still has its old CANCEL in its queue. */
  lemma ReportsTwice(st: Loop, e: Event, m: Mask)
    requires OwnersKnown(st) && st.active == [] && e in st.info && Owned(st, e) && st.info[e].attached
    requires st.info[e].queue != [] && Cancel in st.info[e].queue[0] && st.info[e].mask * (m * IO) != {}
    ensures var p := Poll(Poll(st, e.fd, m), e.fd, m);
      && p.active == [e, e] && !Handles(p, e) && p.owner == st.owner
      && p.info[e] == st.info[e].(queue := st.info[e].queue + [m * IO, m * IO])
  {
    var p := Poll(st, e.fd, m);
    assert p.active == [e];
  }

  lemma DispatchesOldCancel(st: Loop, e: Event)
    requires OwnersKnown(st) && e in st.info && st.active == [e, e] && st.info[e].mask * IO != {}
    requires st.info[e].queue != [] && Cancel in st.info[e].queue[0]
    ensures var u := DispatchOne(st, []);
      u.active == [e] && e in Listed(u) && !Owned(u, e) && u.info[e] == st.info[e]
  {
    hide CancelFd;
    assert DispatchOne(st, []).active == [e];
  }

  /** Every list entry points at an event that the poller owns. */
  predicate AllOwned(st: Loop) { forall x | x in Listed(st) :: Owned(st, x) }

  /** An event that is registered although it was deleted before: its old CANCEL is the front of
      its queue, it is not active, and no active event has its descriptor. */
  predicate Reborn(st: Loop, e: Event) {
    && OwnersKnown(st) && e in st.info && Owned(st, e) && st.info[e].attached
    && st.info[e].queue != [] && Cancel in st.info[e].queue[0] && st.info[e].mask * IO != {}
    && forall x | x in st.active :: x in st.info && x != e && x.fd != e.fd
  }

  /** Dispatching another event's entry, its handler doing nothing, leaves it so. */
  lemma RebornStep(st: Loop, e: Event)
    requires Reborn(st, e) && st.active != []
    ensures Takes(st, Dispatch([])) && Reborn(DispatchOne(st, []), e)
    ensures |DispatchOne(st, []).active| == |st.active| - 1
  {
    hide CancelFd, Listed;
    assert st.active[0] in st.active;
    var t := DispatchOne(st, []);
    assert forall x | x in t.active :: x in st.active;
  }

  /** So all that is active can be dispatched first. */
  lemma {:induction false} RebornDrains(st: Loop, e: Event) returns (steps: seq<Step>)
    requires Reborn(st, e)
    ensures Runs(st, steps) && Reborn(Run(st, steps), e) && Run(st, steps).active == []
    decreases |st.active|
  {
    hide Reborn, FreshAll, Handles, Next, DispatchOne;
    RebornKnown(st, e);
    if st.active == [] {
      steps := [];
    } else {
      RebornStep(st, e);
      NextIs(st, Dispatch([]));
      var more := RebornDrains(DispatchOne(st, []), e);
      steps := [Dispatch([])] + more;
      assert steps[0] == Dispatch([]) && steps[1..] == more;
    }
  }

  lemma RebornKnown(st: Loop, e: Event)
    requires Reborn(st, e)
    ensures OwnersKnown(st)
  {
  }

  /** Then two reports and one more dispatch leave an entry without an owner. */
  lemma RebornDangles(st: Loop, e: Event) returns (steps: seq<Step>)
    requires Reborn(st, e) && st.active == []
    ensures Runs(st, steps) && !AllOwned(Run(st, steps))
  {
    hide Listed, Poll, DispatchOne;
    var p := Poll(st, e.fd, IO);
    var q := Poll(p, e.fd, IO);
    ReportsTwice(st, e, IO);
    DispatchesOldCancel(q, e);
    steps := [Report(e.fd, IO), Report(e.fd, IO), Dispatch([])];
    ThreeSteps(st, steps);
  }

  lemma ThreeSteps(st: Loop, steps: seq<Step>)
    requires OwnersKnown(st) && |steps| == 3 && steps[0].Report? && steps[1].Report? && steps[2] == Dispatch([])
    requires var q := Poll(Poll(st, steps[0].fd, steps[0].m), steps[1].fd, steps[1].m);
      q.active != [] && q.active[0] in q.info
    ensures Runs(st, steps)
    ensures Run(st, steps) == DispatchOne(Poll(Poll(st, steps[0].fd, steps[0].m), steps[1].fd, steps[1].m), [])
  {
    hide Poll, DispatchOne;
    var p := Poll(st, steps[0].fd, steps[0].m);
    var q := Poll(p, steps[1].fd, steps[1].m);
    assert steps[1..][0] == steps[1] && steps[1..][1..] == steps[2..] == [steps[2]];
    var d := DispatchOne(q, []);
    assert Runs(d, []) && Run(d, []) == d;
    assert Runs(q, [steps[2]]) && Run(q, [steps[2]]) == d;
    assert Runs(p, steps[1..]) && Run(p, steps[1..]) == d;
  }

  lemma {:induction false} RunsOn(st: Loop, a: seq<Step>, b: seq<Step>)
    requires OwnersKnown(st) && Runs(st, a) && Runs(Run(st, a), b)
    ensures Runs(st, a + b) && Run(st, a + b) == Run(Run(st, a), b)
    decreases |a|
  {
    hide Takes, Next;
    if a == [] {
      assert a + b == b;
    } else {
      assert (a + b)[0] == a[0] && (a + b)[1..] == a[1..] + b;
      RunsOn(Next(st, a[0]), a[1..], b);
    }
  }

  lemma OwnedInRun(st: Loop, steps: seq<Step>)
    requires Between(st) && Runs(st, steps)
    ensures AllOwned(Run(st, steps))
  {
    hide Listed, Run, Runs, EventsOk, InterestOk, RunningOk, Owned;
    RunKeeps(st, steps);
    var t := Run(st, steps);
    forall x | x in Listed(t) ensures Owned(t, x) {
      ListedIsOwned(t, x);
    }
  }

  lemma RegisteredReborn(st: Loop, e: Event)
    requires Between(st) && e in st.info && Registers(st, e, true) && st.info[e].queue != []
    ensures Reborn(DoRegister(st, e, true), e)
  {
    hide InterestOk, RegistFd;
    assert EventOk(st, e);
    forall x | x in st.active ensures x in st.info && x != e && x.fd != e.fd {
      assert x in Listed(st);
      ListedIsOwned(st, x);
    }
  }

  /** Why only fresh events. From a state between steps, registering an event leaves every later
      run with no entry that has lost its owner if and only if the event's queue is empty. A
      deleted event keeps its CANCEL there. */
  lemma RegisterSafeIff(st: Loop, e: Event)
    requires Between(st) && e in st.info && Registers(st, e, true)
    ensures var r := DoRegister(st, e, true);
      && OwnersKnown(r)
      && ((forall steps | Runs(r, steps) :: AllOwned(Run(r, steps))) <==> st.info[e].queue == [])
  {
    hide EventsOk, InterestOk, RunningOk, Listed, AllOwned, Run, Runs, DoRegister;
    RegisterKnown(st, e);
    var r := DoRegister(st, e, true);
    if st.info[e].queue == [] {
      NextKeeps(st, Do(Register(e, true)));
      forall steps | Runs(r, steps) ensures AllOwned(Run(r, steps)) {
        OwnedInRun(r, steps);
      }
    } else {
      RegisteredReborn(st, e);
      var a := RebornDrains(r, e);
      var b := RebornDangles(Run(r, a), e);
      RunsOn(r, a, b);
    }
  }

  lemma RegisterKnown(st: Loop, e: Event)
    requires OwnersKnown(st) && e in st.info
    ensures OwnersKnown(DoRegister(st, e, true))
  {
  }
}
