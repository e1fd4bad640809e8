/** Heaps that hold expired entries, as cancelled timers leave them behind: which due timers a
    launch misses, and when. */
module TimerExpired {
  import opened Heaps
  import opened Timers
  import opened TimerRuns

  /** No entry that is alive is less than its parent, if that is alive. */
  predicate InOrder(st: State) { IsHeap(KeysOf(st.live), st.heap) }

  /** Once the loop in `Launch` stops on a heap in order, an entry that is still due lies below
      an expired one. */
  lemma HiddenBelowExpired(st: State, last: nat, i: nat)
    requires InOrder(st) && !GoesOn(st, last) && i < |st.heap|
    requires st.heap[i] in st.live && st.live[st.heap[i]].next <= last
    ensures !LiveAbove(KeysOf(st.live), st.heap, i)
  {
    hide IsHeap, LiveAbove;
    if LiveAbove(KeysOf(st.live), st.heap, i) {
      PathLeast(KeysOf(st.live), st.heap, i);
    }
  }

  // ---------------------------------------------------------------- one pass

  /** The pop of one pass sinks well. */
  predicate StepSinks(st: State, clock: nat -> nat)
    requires st.heap != []
  {
    var e := st.heap[0];
    if e in st.live && st.live[e].loop then
      var k := KeysOf(st.live)[e := clock(st.tick) + st.live[e].timeout];
      PopsWell(k, Push(k, st.heap, e))
    else PopsWell(KeysOf(st.live), st.heap)
  }

  /** A pass keeps a heap in order if and only if its pop sinks well. */
  lemma StepInOrderIff(st: State, clock: nat -> nat)
    requires InOrder(st) && Distinct(st.heap) && st.heap != []
    ensures InOrder(LaunchOne(st, clock)) <==> StepSinks(st, clock)
  {
    hide Push, Pop, PopsWell, IsHeap, Ordered;
    var e, k := st.heap[0], KeysOf(st.live);
    if e in st.live && st.live[e].loop {
      var key := clock(st.tick) + st.live[e].timeout;
      ReschedulesIff(k, st.heap, key);
      KeysAfter(st.live, e, st.live[e].(next := key));
    } else {
      OrderedFrom(k, st.heap);
      PopOrdersIff(k, st.heap);
    }
  }

  // ---------------------------------------------------------------- a launch

  /** All its pops do. */
  ghost predicate LaunchSinks(st: State, last: nat, clock: nat -> nat)
    requires Ticks(clock, last) && Paced(st, last)
    decreases Ready(st, last), |st.heap|
  {
    GoesOn(st, last) ==>
      StepSinks(st, clock) && (LaunchProgress(st, last, clock); LaunchSinks(LaunchOne(st, clock), last, clock))
  }

  /** The heap is in order before, between and after its passes. */
  ghost predicate StaysInOrder(st: State, last: nat, clock: nat -> nat)
    requires Ticks(clock, last) && Paced(st, last)
    decreases Ready(st, last), |st.heap|
  {
    && InOrder(st)
    && (GoesOn(st, last) ==> (LaunchProgress(st, last, clock); StaysInOrder(LaunchOne(st, clock), last, clock)))
  }

  /** A launch keeps the heap in order throughout if and only if all its pops sink well. */
  lemma {:induction false} LaunchInOrderIff(st: State, last: nat, clock: nat -> nat)
    requires InOrder(st) && Distinct(st.heap) && Ticks(clock, last) && Paced(st, last)
    ensures StaysInOrder(st, last, clock) <==> LaunchSinks(st, last, clock)
    ensures LaunchSinks(st, last, clock) ==> InOrder(Launch(st, last, clock))
    decreases Ready(st, last), |st.heap|
  {
    hide InOrder, Distinct, LaunchOne, StepSinks, Ready;
    if GoesOn(st, last) {
      var t := LaunchOne(st, clock);
      LaunchProgress(st, last, clock);
      StepInOrderIff(st, clock);
      StepMembers(st, clock);
      if InOrder(t) {
        LaunchInOrderIff(t, last, clock);
      }
    }
  }

  /** An entry of `e` has an expired ancestor. */
  predicate Hidden(st: State, e: TimerEvent) {
    exists i | 0 <= i < |st.heap| :: st.heap[i] == e && !LiveAbove(KeysOf(st.live), st.heap, i)
  }

  /** What a launch misses whose pops sink well: every due timer that is not suspended is fired,
      unless at the end it lies below an expired entry. So a launch leaves nothing due that
      has only live ancestors. */
  lemma LaunchMisses(st: State, last: nat, clock: nat -> nat)
    requires InOrder(st) && Distinct(st.heap) && Ticks(clock, last) && Paced(st, last) && LaunchSinks(st, last, clock)
    ensures var t := Launch(st, last, clock);
      && InOrder(t)
      && (forall e :: Due(t, last, e) ==> Due(st, last, e) && Hidden(t, e))
      && (forall e | Due(st, last, e) && !st.live[e].suspended :: e in Fires(st, last, clock) || Hidden(t, e))
  {
    hide IsHeap, Distinct, Launch, Fires, LaunchSinks, Hidden, Ready;
    var t := Launch(st, last, clock);
    LaunchInOrderIff(st, last, clock);
    LaunchTakes(st, last, clock);
    LaunchFiresTaken(st, last, clock);
    forall e | Due(t, last, e) ensures Hidden(t, e) {
      DueHidden(t, last, e);
    }
    forall e | Due(st, last, e) && !st.live[e].suspended ensures e in Fires(st, last, clock) || Hidden(t, e) {
      if !Taken(st, t, last, e) {
        assert Due(t, last, e);
      }
    }
  }

  lemma DueHidden(st: State, last: nat, e: TimerEvent)
    requires InOrder(st) && !GoesOn(st, last) && Due(st, last, e)
    ensures Hidden(st, e)
  {
    hide IsHeap, LiveAbove;
    var i :| 0 <= i < |st.heap| && st.heap[i] == e;
    HiddenBelowExpired(st, last, i);
  }

  // ---------------------------------------------------------------- runs

  /** Fewer keys leave a heap in order: an expired element is never out of place. */
  lemma FewerKeys(k: Keys<TimerEvent>, l: Keys<TimerEvent>, s: seq<TimerEvent>)
    requires IsHeap(k, s) && forall e | e in s && e in l :: e in k && l[e] == k[e]
    ensures IsHeap(l, s)
  {
    forall i | 0 < i < |s| ensures !Less(l, s[i], s[Parent(i)]) {
      assert !Less(k, s[i], s[Parent(i)]);
      assert s[i] in s && s[Parent(i)] in s;
    }
  }

  lemma AddInOrder(st: State, e: TimerEvent)
    requires InOrder(st)
    ensures InOrder(AddTimer(st, e))
  {
    hide Push, IsHeap;
    var k := KeysOf(st.live);
    OrderedIsHeap(k, st.heap);
    PushOrders(k, st.heap, e, 0);
    OrderedIsHeap(k, Push(k, st.heap, e));
  }

  /** Each launch of the run sinks well. */
  ghost predicate RunSinks(st: State, steps: seq<Step>)
    requires Runs(st, steps)
    decreases |steps|
  {
    steps == [] || (
      && (steps[0].Run? ==> LaunchSinks(st, steps[0].last, steps[0].clock))
      && RunSinks(Next(st, steps[0]), steps[1..]))
  }

  lemma NextInOrder(st: State, step: Step)
    requires InOrder(st) && Distinct(st.heap) && Takes(st, step)
    requires step.Run? ==> LaunchSinks(st, step.last, step.clock)
    ensures InOrder(Next(st, step))
  {
    hide IsHeap, Distinct, Launch, LaunchSinks, Ready, AddTimer;
    match step {
      case Add(e) => AddInOrder(st, e);
      case Run(last, clock) => LaunchInOrderIff(st, last, clock);
      case _ => FewerKeys(KeysOf(st.live), KeysOf(Next(st, step).live), st.heap);
    }
  }

  /** In every run, cancelled timers dying in the heap included, the heap stays in order while
      the pops sink well, so that `LaunchMisses` describes each launch. */
  lemma {:induction false} RunInOrder(st: State, steps: seq<Step>)
    requires InOrder(st) && Distinct(st.heap) && Runs(st, steps) && RunSinks(st, steps)
    ensures InOrder(After(st, steps)) && Distinct(After(st, steps).heap)
    decreases |steps|
  {
    hide InOrder, Distinct, Next, Takes, AddsOnce, LaunchSinks;
    if steps != [] {
      NextInOrder(st, steps[0]);
      NextDistinct(st, steps[0]);
      RunInOrder(Next(st, steps[0]), steps[1..]);
    }
  }

  // ---------------------------------------------------------------- a pop that sinks badly

  /** Four timers whose deadlines make each stay where it is pushed; of the first two, due at
      `last`, the first fires once; the fourth is not due. */
  predicate Four(live: map<TimerEvent, Info>, r: TimerEvent, l: TimerEvent, d: TimerEvent, x: TimerEvent, last: nat) {
    && r in live && l in live && d in live && x in live
    && r != l && r != d && r != x && l != d && l != x && d != x
    && r.id != l.id && r.id != d.id && r.id != x.id && l.id != d.id && l.id != x.id && d.id != x.id
    && live[r].next <= live[l].next <= last < live[x].next && live[r].next <= live[d].next
    && !live[r].loop && !live[r].suspended && !live[l].suspended && (live[l].loop ==> 1 <= live[l].timeout)
  }

  lemma AddsLast(st: State, e: TimerEvent)
    requires e.id !in st.owned && e in st.live && e !in st.heap
    requires st.heap != [] ==> !Less(KeysOf(st.live), e, st.heap[Parent(|st.heap|)])
    ensures Takes(st, Add(e)) && AddsOnce(st, Add(e))
    ensures Next(st, Add(e)) == st.(owned := st.owned[e.id := e], heap := st.heap + [e], num := st.num + 1)
  {
    assert (st.heap + [e])[|st.heap| := e] == st.heap + [e];
  }

  lemma RunCons(st: State, step: Step, steps: seq<Step>)
    requires Takes(st, step) && AddsOnce(st, step) && Runs(Next(st, step), steps)
    ensures Runs(st, [step] + steps) && After(st, [step] + steps) == After(Next(st, step), steps)
  {
    hide Takes, AddsOnce, Next;
    assert ([step] + steps)[0] == step && ([step] + steps)[1..] == steps;
  }

  lemma RunOne(st: State, step: Step)
    requires Takes(st, step) && AddsOnce(st, step)
    ensures Runs(st, [step]) && After(st, [step]) == Next(st, step)
  {
    hide Takes, AddsOnce, Next;
    assert After(Next(st, step), []) == Next(st, step);
    RunCons(st, step, []);
    assert [step] + [] == [step];
  }

  lemma FourAdded(st: State, r: TimerEvent, l: TimerEvent, d: TimerEvent, x: TimerEvent, last: nat)
    requires st.heap == [] && st.owned == map[] && Four(st.live, r, l, d, x, last)
    ensures var steps := [Add(r), Add(l), Add(d), Add(x)];
      && Runs(st, steps)
      && var t := After(st, steps);
      && t.heap == [r, l, d, x] && t.live == st.live && t.owned.Keys == {r.id, l.id, d.id, x.id}
      && t.owned[r.id] == r && t.owned[l.id] == l && t.owned[d.id] == d && t.owned[x.id] == x
  {
    hide AddTimer, Takes, AddsOnce, Next, Runs, After;
    AddsLast(st, r);
    var a := Next(st, Add(r));
    assert a.heap == [r];
    AddsLast(a, l);
    var b := Next(a, Add(l));
    assert b.heap == [r, l];
    AddsLast(b, d);
    var c := Next(b, Add(d));
    assert c.heap == [r, l, d] && Parent(3) == 1;
    AddsLast(c, x);
    assert Next(c, Add(x)).heap == [r, l, d, x];
    RunOne(c, Add(x));
    assert [Add(d)] + [Add(x)] == [Add(d), Add(x)];
    RunCons(b, Add(d), [Add(x)]);
    assert [Add(l)] + [Add(d), Add(x)] == [Add(l), Add(d), Add(x)];
    RunCons(a, Add(l), [Add(d), Add(x)]);
    assert [Add(r)] + [Add(l), Add(d), Add(x)] == [Add(r), Add(l), Add(d), Add(x)];
    RunCons(st, Add(r), [Add(l), Add(d), Add(x)]);
  }

  lemma {:induction false} RunsOn(st: State, a: seq<Step>, b: seq<Step>)
    requires Runs(st, a) && Runs(After(st, a), b)
    ensures Runs(st, a + b) && After(st, a + b) == After(After(st, a), b)
    decreases |a|
  {
    hide Takes, AddsOnce, Next;
    if a == [] {
      assert a + b == b;
    } else {
      assert (a + b)[0] == a[0] && (a + b)[1..] == a[1..] + b;
      RunsOn(Next(st, a[0]), a[1..], b);
    }
  }

  /** The third timer is cancelled: it leaves the map and dies, its entry stays. */
  lemma FourAndDead(st: State, r: TimerEvent, l: TimerEvent, d: TimerEvent, x: TimerEvent, last: nat)
    requires st.heap == [] && st.owned == map[] && Four(st.live, r, l, d, x, last)
    ensures var steps := [Add(r), Add(l), Add(d), Add(x)] + [Del(d), Die(d)];
      && Runs(st, steps)
      && var t := After(st, steps); t.heap == [r, l, d, x] && t.live == st.live - {d}
  {
    hide AddTimer;
    FourAdded(st, r, l, d, x, last);
    var adds := [Add(r), Add(l), Add(d), Add(x)];
    hide Four;
    var t := After(st, adds);
    var u := Next(t, Del(d));
    RunOne(u, Die(d));
    RunCons(t, Del(d), [Die(d)]);
    assert [Del(d)] + [Die(d)] == [Del(d), Die(d)];
    RunsOn(st, adds, [Del(d), Die(d)]);
  }

  /** The pop of the first takes the expired right child for the lesser one, and leaves the last
      element, which is not due, above the second. */
  lemma PopSinksBadly(k: Keys<TimerEvent>, r: TimerEvent, l: TimerEvent, d: TimerEvent, x: TimerEvent)
    requires l in k && x in k && d !in k && k[l] < k[x]
    ensures !PopsWell(k, [r, l, d, x]) && Pop(k, [r, l, d, x]) == [x, l, d]
  {
    var s := [x] + [r, l, d, x][1..3];
    assert s == [x, l, d];
    assert Pick(k, s, 0) == 2 && !Less(k, s[2], x);
    assert s[0 := x] == s;
  }

  /** The launch then: it fires the first, and stops. */
  lemma MissesSecond(st: State, r: TimerEvent, l: TimerEvent, d: TimerEvent, x: TimerEvent, last: nat, clock: nat -> nat)
    requires st.heap == [r, l, d, x] && d !in st.live && r in st.live && l in st.live && x in st.live
    requires st.live[r].next <= st.live[l].next <= last < st.live[x].next
    requires !st.live[r].loop && !st.live[r].suspended && (st.live[l].loop ==> 1 <= st.live[l].timeout)
    requires Ticks(clock, last)
    ensures Paced(st, last) && InOrder(st) && !LaunchSinks(st, last, clock)
    ensures Fires(st, last, clock) == [r]
    ensures var t := Launch(st, last, clock); t.heap == [x, l, d] && t.live == st.live
  {
    hide Pop, PopsWell, Ready;
    PopSinksBadly(KeysOf(st.live), r, l, d, x);
    assert Parent(1) == 0 && Parent(2) == 0 && Parent(3) == 1;
    var t := LaunchOne(st, clock);
    assert t.heap == [x, l, d] && t.live == st.live;
    LaunchProgress(st, last, clock);
    LaunchStops(t, last, clock);
    assert [r] + [] == [r];
  }

  /** A due timer all of whose ancestors are alive is missed all the same: four timers are added,
      the third is cancelled and dies in the heap, and a launch fires the first alone,
      although the second is due. */
  lemma PopHides(st: State, r: TimerEvent, l: TimerEvent, d: TimerEvent, x: TimerEvent, last: nat, clock: nat -> nat)
    requires st.heap == [] && st.owned == map[] && Four(st.live, r, l, d, x, last) && Ticks(clock, last)
    ensures var steps := [Add(r), Add(l), Add(d), Add(x)] + [Del(d), Die(d)];
      && Runs(st, steps)
      && var s := After(st, steps);
      && Takes(s, Run(last, clock)) && InOrder(s)
      && s.heap == [r, l, d, x] && Due(s, last, l) && !s.live[l].suspended && LiveAbove(KeysOf(s.live), s.heap, 1)
      && Fires(s, last, clock) == [r]
      && var t := Next(s, Run(last, clock));
      && t.heap == [x, l, d] && Due(t, last, l) && LiveAbove(KeysOf(t.live), t.heap, 1)
  {
    hide Launch, Fires, IsHeap, LaunchSinks, Runs, After;
    FourAndDead(st, r, l, d, x, last);
    var s := After(st, [Add(r), Add(l), Add(d), Add(x)] + [Del(d), Die(d)]);
    MissesSecond(s, r, l, d, x, last, clock);
    assert Parent(1) == 0;
  }
}
