/** Whole runs of `chaos::Timer`, and the exact conditions under which a launch ends and a
    timer is fired. */
module TimerRuns {
  import opened Heaps
  import opened Timers

  // ---------------------------------------------------------------- when a launch ends

  /** `n` passes of the loop in `Launch`, or as many as there are. */
  ghost function Passes(st: State, last: nat, clock: nat -> nat, n: nat): State
    decreases n
  {
    if n == 0 || !GoesOn(st, last) then st else Passes(LaunchOne(st, clock), last, clock, n - 1)
  }

  lemma {:induction false} FewMembers(s: seq<TimerEvent>)
    ensures |set e | e in s| <= |s|
  {
    if s != [] {
      FewMembers(s[1..]);
      assert (set e | e in s) == (set e | e in s[1..]) + {s[0]};
    }
  }

  lemma FewReady(st: State, last: nat)
    ensures |Ready(st, last)| <= |st.heap|
  {
    FewMembers(st.heap);
    Fewer(Ready(st, last), set e | e in st.heap);
  }

  lemma {:induction false} Fewer<T>(a: set<T>, b: set<T>)
    requires a <= b
    ensures |a| <= |b|
  {
    if a != {} {
      var x :| x in a;
      Fewer(a - {x}, b - {x});
    }
  }

  lemma StepReady(st: State, last: nat, clock: nat -> nat)
    requires Distinct(st.heap) && GoesOn(st, last) && Ticks(clock, last) && Paced(st, last)
    ensures |Ready(LaunchOne(st, clock), last)| < |Ready(st, last)|
  {
    hide LaunchOne, Distinct, Ready;
    var e, t := st.heap[0], LaunchOne(st, clock);
    StepTakes(st, last, clock);
    LaunchProgress(st, last, clock);
    ReadyIs(st, last, e);
    ReadyIs(t, last, e);
    assert Ready(t, last) <= Ready(st, last);
    Fewer(Ready(t, last), Ready(st, last) - {e});
  }

  lemma ReadyIs(st: State, last: nat, e: TimerEvent)
    ensures e in Ready(st, last) <==> IsReady(st, last, e)
  {
  }

  lemma {:induction false} PassesEnd(st: State, last: nat, clock: nat -> nat, n: nat)
    requires Distinct(st.heap) && Ticks(clock, last) && Paced(st, last) && |Ready(st, last)| <= n
    ensures !GoesOn(Passes(st, last, clock, n), last)
    ensures Passes(st, last, clock, n) == Launch(st, last, clock)
    decreases n
  {
    hide LaunchOne, Distinct, Ready;
    if GoesOn(st, last) {
      StepReady(st, last, clock);
      StepMembers(st, clock);
      LaunchProgress(st, last, clock);
      PassesEnd(LaunchOne(st, clock), last, clock, n - 1);
    }
  }

  /** A due loop timer with timeout 0 stays due while the clock stands still. */
  lemma {:induction false} PassesSpin(st: State, last: nat, clock: nat -> nat, n: nat, e: TimerEvent)
    requires Good(st) && Due(st, last, e) && st.live[e].loop && st.live[e].timeout == 0
    requires forall t: nat :: clock(t) == last
    ensures GoesOn(Passes(st, last, clock, n), last)
    decreases n
  {
    hide LaunchOne, IsHeap, AllLive, Distinct;
    FrontLeast(st, e);
    if n != 0 {
      StepGood(st, last, clock);
      StepMembers(st, clock);
      StepLive(st, clock);
      PassesSpin(LaunchOne(st, clock), last, clock, n - 1, e);
    }
  }

  /** Whatever the clock reads, as long as it does not run backwards, the loop in `Launch` ends,
      within as many passes as the heap has entries, if and only if no due loop timer has
      timeout 0. */
  lemma EndsIff(st: State, last: nat)
    requires Good(st)
    ensures (forall clock: nat -> nat | Ticks(clock, last) :: !GoesOn(Passes(st, last, clock, |st.heap|), last))
            <==> forall e | e in st.heap && Due(st, last, e) && st.live[e].loop :: 1 <= st.live[e].timeout
  {
    hide Passes, IsHeap, AllLive;
    if Paced(st, last) {
      forall clock: nat -> nat | Ticks(clock, last) ensures !GoesOn(Passes(st, last, clock, |st.heap|), last) {
        FewReady(st, last);
        PassesEnd(st, last, clock, |st.heap|);
      }
    } else {
      var e :| e in st.heap && Due(st, last, e) && st.live[e].loop && st.live[e].timeout < 1;
      var still: nat -> nat := _ => last;
      PassesSpin(st, last, still, |st.heap|, e);
      assert Ticks(still, last);
    }
  }

  // ---------------------------------------------------------------- expired entries

  /** Every ancestor of slot `i` is alive. */
  predicate LiveAbove<T>(k: Keys<T>, s: seq<T>, i: nat)
    requires i <= |s|
    decreases i
  {
    i == 0 || (s[Parent(i)] in k && LiveAbove(k, s, Parent(i)))
  }

  lemma {:induction false} PathLeast<T>(k: Keys<T>, s: seq<T>, i: nat)
    requires i < |s| && IsHeap(k, s) && s[i] in k && LiveAbove(k, s, i)
    ensures s[0] in k && k[s[0]] <= k[s[i]]
  {
    if i > 0 {
      assert !Less(k, s[i], s[Parent(i)]);
      PathLeast(k, s, Parent(i));
    }
  }

  /** What is less than the root rises to it from slot `i` if and only if nothing above the
      slot has expired. */
  lemma {:induction false} RisesIff<T>(k: Keys<T>, s: seq<T>, t: seq<T>, i: nat, x: T)
    requires i <= |s| && i < |t| && forall j | 0 <= j < i :: t[j] == s[j]
    requires IsHeap(k, s) && s != [] && Less(k, x, s[0])
    ensures Up(k, t, i, x)[0] == (if LiveAbove(k, s, i) then x else s[0])
    decreases i
  {
    hide IsHeap;
    if i > 0 && s[Parent(i)] in k {
      if LiveAbove(k, s, Parent(i)) { PathLeast(k, s, Parent(i)); }
      if Less(k, x, t[Parent(i)]) {
        RisesIff(k, s, t[i := t[Parent(i)]], Parent(i), x);
      }
    }
  }

  /** While the front is alive and not due, a due timer that is added, and not suspended, is
      fired by the next launch if and only if every ancestor of its slot is alive: an expired
      entry hides what is pushed below it. */
  lemma AddedFiresIff(st: State, e: TimerEvent, last: nat, clock: nat -> nat)
    requires st.heap != [] && st.heap[0] in st.live && last < st.live[st.heap[0]].next
    requires IsHeap(KeysOf(st.live), st.heap)
    requires e in st.live && !st.live[e].suspended && st.live[e].next <= last && e.id !in st.owned
    requires Ticks(clock, last) && Paced(AddTimer(st, e), last)
    ensures e in Fires(AddTimer(st, e), last, clock) <==> LiveAbove(KeysOf(st.live), st.heap, |st.heap|)
  {
    hide Up, IsHeap, LiveAbove, LaunchOne, Ready;
    var k, t := KeysOf(st.live), AddTimer(st, e);
    RisesIff(k, st.heap, st.heap + [e], |st.heap|, e);
    assert t.heap[0] == if LiveAbove(k, st.heap, |st.heap|) then e else st.heap[0];
    if LiveAbove(k, st.heap, |st.heap|) {
      FiresFront(t, last, clock);
    } else {
      LaunchStops(t, last, clock);
    }
  }

  lemma FiresFront(st: State, last: nat, clock: nat -> nat)
    requires GoesOn(st, last) && Ticks(clock, last) && Paced(st, last)
    requires st.heap[0] in st.live && !st.live[st.heap[0]].suspended
    ensures st.heap[0] in Fires(st, last, clock)
  {
    hide LaunchOne, Ready;
  }

  // ---------------------------------------------------------------- runs

  /** Between launches timers are created, added, removed from the map, suspended, resumed or
      made to loop, and die. A cancelled timer is removed from the map and then, unless
      somebody else holds it, dies with its entry still in the heap. */
  datatype Step =
    | Create(e: TimerEvent, i: Info)
    | Add(e: TimerEvent)
    | Del(e: TimerEvent)
    | Set(e: TimerEvent, loop: bool, suspended: bool)
    | Die(e: TimerEvent)
    | Run(last: nat, clock: nat -> nat)

  /** Objects are created once, and die when the map does not own them any more. A launch is
      one that ends. */
  ghost predicate Takes(st: State, step: Step) {
    match step
    case Create(e, _) => e !in st.live && e !in st.heap
    case Add(e) => e in st.live
    case Del(_) => true
    case Set(e, _, _) => e in st.live
    case Die(e) => forall id | id in st.owned :: st.owned[id] != e
    case Run(last, clock) => Ticks(clock, last) && Paced(st, last)
  }

  ghost function Next(st: State, step: Step): State
    requires Takes(st, step)
  {
    match step
    case Create(e, i) => st.(live := st.live[e := i])
    case Add(e) => AddTimer(st, e)
    case Del(e) => DelTimer(st, e)
    case Set(e, loop, suspended) => st.(live := st.live[e := st.live[e].(loop := loop, suspended := suspended)])
    case Die(e) => st.(live := st.live - {e})
    case Run(last, clock) => Launch(st, last, clock)
  }

  /** A timer whose entry is still in the heap is not added again. */
  predicate AddsOnce(st: State, step: Step) { step.Add? ==> step.e !in st.heap || step.e.id in st.owned }

  /** No entry of the heap expires. */
  predicate KeepsAlive(st: State, step: Step) { step.Die? ==> step.e !in st.heap }

  ghost predicate Runs(st: State, steps: seq<Step>)
    decreases |steps|
  {
    steps == [] || (Takes(st, steps[0]) && AddsOnce(st, steps[0]) && Runs(Next(st, steps[0]), steps[1..]))
  }

  ghost predicate AllAlive(st: State, steps: seq<Step>)
    requires Runs(st, steps)
    decreases |steps|
  {
    steps == [] || (KeepsAlive(st, steps[0]) && AllAlive(Next(st, steps[0]), steps[1..]))
  }

  ghost function After(st: State, steps: seq<Step>): (t: State)
    requires Runs(st, steps)
    decreases |steps|
  {
    if steps == [] then st else After(Next(st, steps[0]), steps[1..])
  }

  /** Adding keeps the entries distinct if and only if the timer has no entry yet, or is refused. */
  lemma AddDistinctIff(st: State, e: TimerEvent)
    requires Distinct(st.heap)
    ensures Distinct(AddTimer(st, e).heap) <==> AddsOnce(st, Add(e))
  {
    hide Push;
    var t := AddTimer(st, e);
    if e.id !in st.owned {
      PushAdds(KeysOf(st.live), st.heap, e);
      assert forall x :: x in t.heap <==> x in multiset(t.heap);
      assert forall x :: x in st.heap <==> x in multiset(st.heap);
      assert e in t.heap && multiset(t.heap)[e] == multiset(st.heap)[e] + 1;
    }
  }

  lemma NextDistinct(st: State, step: Step)
    requires Distinct(st.heap) && Takes(st, step) && AddsOnce(st, step)
    ensures Distinct(Next(st, step).heap)
  {
    hide Distinct, Launch, AddTimer, AddsOnce;
    match step {
      case Add(e) => AddDistinctIff(st, e);
      case Run(last, clock) => LaunchTakes(st, last, clock);
      case _ =>
    }
  }

  /** In every run, timers dying in the heap included, the entries stay distinct, so that
      `LaunchTakes` and `LaunchFiresTaken` describe each launch: none fires a timer that is
      gone, suspended or not due, or fires one twice. */
  lemma {:induction false} RunDistinct(st: State, steps: seq<Step>)
    requires Distinct(st.heap) && Runs(st, steps)
    ensures Distinct(After(st, steps).heap)
    decreases |steps|
  {
    hide Distinct, Next, Takes, AddsOnce;
    if steps != [] {
      NextDistinct(st, steps[0]);
      RunDistinct(Next(st, steps[0]), steps[1..]);
    }
  }

  lemma SameKeys(k: Keys<TimerEvent>, l: Keys<TimerEvent>, s: seq<TimerEvent>)
    requires AllLive(k, s) && IsHeap(k, s) && forall e | e in s :: e in l && l[e] == k[e]
    ensures AllLive(l, s) && IsHeap(l, s)
  {
    forall i | 0 < i < |s| ensures !Less(l, s[i], s[Parent(i)]) {
      assert !Less(k, s[i], s[Parent(i)]);
      assert s[i] in s && s[Parent(i)] in s;
    }
  }

  lemma AddGood(st: State, e: TimerEvent)
    requires Good(st) && e in st.live && AddsOnce(st, Add(e))
    ensures Good(AddTimer(st, e))
  {
    hide Push, IsHeap, Distinct;
    AddDistinctIff(st, e);
    if e.id !in st.owned {
      var k := KeysOf(st.live);
      OrderedIsHeap(k, st.heap);
      PushOrders(k, st.heap, e, 0);
      PushAdds(k, st.heap, e);
      var t := Push(k, st.heap, e);
      forall i | 0 <= i < |t| ensures t[i] in k {
        assert t[i] in multiset(t);
      }
      OrderedIsHeap(k, t);
    }
  }

  lemma OrderedIsHeap<T>(k: Keys<T>, s: seq<T>)
    ensures Ordered(k, s, 0) <==> IsHeap(k, s)
  {
  }

  /** A death leaves a heap without expired entries if and only if it is not one of an entry. */
  lemma DieGoodIff(st: State, e: TimerEvent)
    requires Good(st)
    ensures Good(st.(live := st.live - {e})) <==> e !in st.heap
  {
    hide IsHeap, Distinct;
    var t := st.(live := st.live - {e});
    if e !in st.heap {
      HeapLive(st);
      SameKeys(KeysOf(st.live), KeysOf(t.live), st.heap);
    } else {
      var i :| 0 <= i < |st.heap| && st.heap[i] == e;
      assert st.heap[i] !in KeysOf(t.live);
    }
  }

  lemma NextGood(st: State, step: Step)
    requires Good(st) && Takes(st, step) && AddsOnce(st, step) && KeepsAlive(st, step)
    ensures Good(Next(st, step))
  {
    hide Push, Pop, IsHeap, AllLive, Distinct, Ready, Launch, AddTimer;
    var t := Next(st, step);
    match step {
      case Add(e) => AddGood(st, e);
      case Die(e) => DieGoodIff(st, e);
      case Run(last, clock) => LaunchGood(st, last, clock);
      case _ =>
        HeapLive(st);
        SameKeys(KeysOf(st.live), KeysOf(t.live), st.heap);
    }
  }

  lemma HeapLive(st: State)
    requires AllLive(KeysOf(st.live), st.heap)
    ensures forall e | e in st.heap :: e in st.live
  {
  }

  /** Suspending, resuming and looping decide what the next launch makes of a due timer: it is fired
      if and only if it is not suspended, and stays in the heap if and only if it loops. */
  lemma SetDecides(st: State, e: TimerEvent, loop: bool, suspended: bool, last: nat, clock: nat -> nat)
    requires Good(st) && Due(st, last, e) && Ticks(clock, last)
    requires Takes(st, Set(e, loop, suspended)) && Paced(Next(st, Set(e, loop, suspended)), last)
    ensures var t := Next(st, Set(e, loop, suspended));
      && (e in Fires(t, last, clock) <==> !suspended)
      && (e in Launch(t, last, clock).heap <==> loop)
  {
    hide Push, Pop, IsHeap, AllLive, Distinct, Ready, Launch, Fires;
    var step := Set(e, loop, suspended);
    NextGood(st, step);
    var t := Next(st, step);
    LaunchExact(t, last, clock);
    LaunchFires(t, last, clock);
  }

  /** In every run in which no entry of the heap expires, the heap stays good, so that
      `LaunchExact` and `LaunchFires` describe each launch. */
  lemma {:induction false} RunGood(st: State, steps: seq<Step>)
    requires Good(st) && Runs(st, steps) && AllAlive(st, steps)
    ensures Good(After(st, steps))
    decreases |steps|
  {
    hide Good, Next, Takes, AddsOnce, KeepsAlive;
    if steps != [] {
      NextGood(st, steps[0]);
      RunGood(Next(st, steps[0]), steps[1..]);
    }
  }
}
