/** How long the poller waits for timers, in every heap, and what the counter of timers counts. */
module TimerWaits {
  import opened Heaps
  import opened Timers
  import opened TimerRuns
  import opened TimerExpired

  // ---------------------------------------------------------------- the poller's timeout

  /** The wait for the front, if it is alive, survives the cast to `int`. */
  predicate FrontFits(st: State, now: nat) {
    st.heap != [] && st.heap[0] in st.live ==> WaitFits(now, st.live[st.heap[0]].next)
  }

  /** The poller waits without limit if and only if the heap is empty. */
  lemma WaitsForeverIff(st: State, now: nat)
    ensures -1 <= GetNextTimeout(st, now)
    ensures GetNextTimeout(st, now) == -1 <==> st.heap == []
  {
  }

  /** It does not wait if and only if a launch would find its front expired or due; and when it
      waits, a launch after that time does. */
  lemma WaitsIff(st: State, now: nat)
    requires FrontFits(st, now) && st.heap != []
    ensures GetNextTimeout(st, now) == 0 <==> GoesOn(st, now)
    ensures GoesOn(st, now + GetNextTimeout(st, now))
    ensures forall t | now <= t < now + GetNextTimeout(st, now) :: !GoesOn(st, t)
  {
    hide GetNextTimeout, WaitFits;
    if st.heap[0] in st.live {
      WaitsForFront(st, now);
    } else {
      NoWaitForExpired(st, now);
    }
  }

  lemma NoWaitForExpired(st: State, now: nat)
    requires st.heap != [] && st.heap[0] !in st.live
    ensures GetNextTimeout(st, now) == 0
  {
  }

  /** In a heap in order no timer that is alive, with only live ancestors, is waited for past its
      deadline, whatever has expired elsewhere. */
  lemma NeverLate(st: State, now: nat, i: nat)
    requires InOrder(st) && FrontFits(st, now) && i < |st.heap|
    requires st.heap[i] in st.live && LiveAbove(KeysOf(st.live), st.heap, i)
    ensures var r := GetNextTimeout(st, now);
      0 <= r && (now + r <= st.live[st.heap[i]].next || r == 0)
  {
    hide IsHeap, LiveAbove, GetNextTimeout, WaitFits;
    PathLeast(KeysOf(st.live), st.heap, i);
    WaitsForFront(st, now);
  }

  // ---------------------------------------------------------------- the counter

  /** By how much the counter of timers exceeds the map. */
  function Excess(st: State): int { st.num - |st.owned| }

  lemma SizeAdd(m: map<int, TimerEvent>, id: int, e: TimerEvent)
    requires id !in m
    ensures |m[id := e]| == |m| + 1
  {
    assert m[id := e].Keys == m.Keys + {id};
    assert |m[id := e].Keys| == |m[id := e]|;
  }

  lemma SizeLess(m: map<int, TimerEvent>, id: int)
    ensures |m - {id}| == |m| - (if id in m then 1 else 0)
  {
    assert (m - {id}).Keys == m.Keys - {id};
    assert |(m - {id}).Keys| == |m - {id}|;
  }

  lemma AddExcess(st: State, e: TimerEvent)
    ensures Excess(AddTimer(st, e)) == Excess(st)
  {
    hide Push;
    if e.id !in st.owned { SizeAdd(st.owned, e.id, e); }
  }

  lemma DelExcess(st: State, e: TimerEvent)
    ensures Excess(DelTimer(st, e)) == Excess(st) - (if e.id in st.owned then 0 else 1)
  {
    SizeLess(st.owned, e.id);
  }

  /** The pass takes no timer out of the map that is not in it. */
  predicate PassCounts(st: State)
    requires st.heap != []
  {
    var e := st.heap[0];
    e in st.live && st.live[e].suspended && !st.live[e].loop ==> e.id in st.owned
  }

  lemma PassExcess(st: State, clock: nat -> nat)
    requires st.heap != []
    ensures Excess(LaunchOne(st, clock)) == Excess(st) - (if PassCounts(st) then 0 else 1)
  {
    hide Push, Pop;
    SizeLess(st.owned, st.heap[0].id);
  }

  ghost predicate LaunchCounts(st: State, last: nat, clock: nat -> nat)
    requires Ticks(clock, last) && Paced(st, last)
    decreases Ready(st, last), |st.heap|
  {
    GoesOn(st, last) ==>
      PassCounts(st) && (LaunchProgress(st, last, clock); LaunchCounts(LaunchOne(st, clock), last, clock))
  }

  lemma {:induction false} LaunchExcess(st: State, last: nat, clock: nat -> nat)
    requires Ticks(clock, last) && Paced(st, last)
    ensures Excess(Launch(st, last, clock)) <= Excess(st)
    ensures Excess(Launch(st, last, clock)) == Excess(st) <==> LaunchCounts(st, last, clock)
    decreases Ready(st, last), |st.heap|
  {
    hide LaunchOne, Ready, PassCounts, Excess;
    if GoesOn(st, last) {
      PassExcess(st, clock);
      LaunchProgress(st, last, clock);
      LaunchExcess(LaunchOne(st, clock), last, clock);
    }
  }

  /** Each deletion of the step finds its timer's id in the map. */
  ghost predicate Counts(st: State, step: Step)
    requires Takes(st, step)
  {
    match step
    case Create(_, _) => true
    case Add(_) => true
    case Del(e) => e.id in st.owned
    case Set(_, _, _) => true
    case Die(_) => true
    case Run(last, clock) => LaunchCounts(st, last, clock)
  }

  lemma NextExcess(st: State, step: Step)
    requires Takes(st, step)
    ensures Excess(Next(st, step)) <= Excess(st)
    ensures Excess(Next(st, step)) == Excess(st) <==> Counts(st, step)
  {
    hide Launch, AddTimer, Ready, Paced, LaunchCounts;
    match step {
      case Create(_, _) =>
      case Add(e) => AddExcess(st, e);
      case Del(e) => DelExcess(st, e);
      case Set(_, _, _) =>
      case Die(_) =>
      case Run(last, clock) => LaunchExcess(st, last, clock);
    }
  }

  ghost predicate AllCount(st: State, steps: seq<Step>)
    requires Runs(st, steps)
    decreases |steps|
  {
    steps == [] || (Counts(st, steps[0]) && AllCount(Next(st, steps[0]), steps[1..]))
  }

  /** Over every run the counter of timers stays the size of the map if and only if each deletion,
      by a cancellation or by a launch, finds its timer's id in the map; what is once lost is
      never regained. */
  lemma {:induction false} RunExcessIff(st: State, steps: seq<Step>)
    requires Runs(st, steps)
    ensures Excess(After(st, steps)) <= Excess(st)
    ensures Excess(After(st, steps)) == Excess(st) <==> AllCount(st, steps)
    decreases |steps|
  {
    hide Next, Takes, AddsOnce, Counts, Excess;
    if steps != [] {
      NextExcess(st, steps[0]);
      RunExcessIff(Next(st, steps[0]), steps[1..]);
    }
  }
}
