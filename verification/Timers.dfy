/** `chaos::Timer`: timers with deadlines in a heap of weak pointers, and `Launch`, as values. */
module Timers {
  import opened Heaps

  /** A timer object: its identity and its `timer_id`. */
  class TimerEvent {
    const id: int
    const timeoutMs: nat
    var nextTime: nat
    var isLoop: bool
    var isSuspend: bool
    var alive: bool  // whether some shared pointer still holds it

    constructor (id: int, timeoutMs: nat, now: nat, isLoop: bool)
      ensures this.id == id && this.timeoutMs == timeoutMs && nextTime == now + timeoutMs
      ensures this.isLoop == isLoop && !isSuspend && alive
    {
      this.id, this.timeoutMs := id, timeoutMs;
      this.nextTime, this.isLoop, isSuspend, alive := now + timeoutMs, isLoop, false, true;
    }
  }

  datatype Info = Info(next: nat, timeout: nat, loop: bool, suspended: bool)

  /** `live` holds the fields of the timers that some shared pointer still holds, `owned` the
      timer map, `num` the counter of timers, `fired` the list that `Launch` appends to, and
      `tick` counts the readings of the clock. */
  datatype State = State(
    heap: seq<TimerEvent>, live: map<TimerEvent, Info>, owned: map<int, TimerEvent>,
    num: int, fired: seq<TimerEvent>, tick: nat)

  function KeysOf(live: map<TimerEvent, Info>): (k: Keys<TimerEvent>)
    ensures k.Keys == live.Keys
  {
    map e | e in live :: live[e].next
  }

  // ---------------------------------------------------------------- operations

  function AddTimer(st: State, e: TimerEvent): State {
    if e.id in st.owned then st
    else st.(owned := st.owned[e.id := e], heap := Push(KeysOf(st.live), st.heap, e), num := st.num + 1)
  }

  function DelTimer(st: State, e: TimerEvent): State {
    st.(owned := st.owned - {e.id}, num := st.num - 1)
  }

  function PopFront(st: State): State { st.(heap := Pop(KeysOf(st.live), st.heap)) }

  /** `SetNextTime` and `Push` of the front, then `Pop`. */
  function Reschedule(st: State, clock: nat -> nat): State
    requires st.heap != [] && st.heap[0] in st.live
  {
    var e := st.heap[0];
    var live := st.live[e := st.live[e].(next := clock(st.tick) + st.live[e].timeout)];
    st.(live := live, tick := st.tick + 1, heap := Pop(KeysOf(live), Push(KeysOf(live), st.heap, e)))
  }

  /** One pass of the loop in `Launch` that does not leave it. */
  function LaunchOne(st: State, clock: nat -> nat): State
    requires st.heap != []
  {
    var e := st.heap[0];
    if e !in st.live then PopFront(st)
    else if st.live[e].suspended then
      if st.live[e].loop then Reschedule(st, clock) else PopFront(DelTimer(st, e))
    else
      var fired := st.(fired := st.fired + [e]);
      if st.live[e].loop then Reschedule(fired, clock) else PopFront(fired)
  }

  /** The loop goes on: the front is expired or due. */
  predicate GoesOn(st: State, last: nat) {
    st.heap != [] && (st.heap[0] in st.live ==> st.live[st.heap[0]].next <= last)
  }

  /** The clock does not run backwards, and no due loop timer has timeout 0. */
  ghost predicate Ticks(clock: nat -> nat, last: nat) { forall t: nat :: last <= clock(t) }

  predicate Due(st: State, last: nat, e: TimerEvent) {
    e in st.heap && e in st.live && st.live[e].next <= last
  }

  predicate Paced(st: State, last: nat) {
    forall e | e in st.heap && Due(st, last, e) && st.live[e].loop :: 1 <= st.live[e].timeout
  }

  /** The entries that are expired or due. */
  ghost function Ready(st: State, last: nat): set<TimerEvent> {
    set e | e in st.heap && (e in st.live ==> st.live[e].next <= last)
  }

  lemma HeapMembers(s: seq<TimerEvent>, t: seq<TimerEvent>)
    requires multiset(t) <= multiset(s)
    ensures forall e | e in t :: e in s
  {
    forall e | e in t ensures e in s {
      assert e in multiset(t);
    }
  }

  lemma RescheduleMembers(st: State, clock: nat -> nat)
    requires st.heap != [] && st.heap[0] in st.live
    ensures var t := Reschedule(st, clock);
      multiset(t.heap) == multiset(st.heap) && |t.heap| == |st.heap| && t.live.Keys == st.live.Keys
  {
    hide Push, Pop;
    var e := st.heap[0];
    var k := KeysOf(st.live[e := st.live[e].(next := clock(st.tick) + st.live[e].timeout)]);
    PushAdds(k, st.heap, e);
    PushFront(k, st.heap, e);
    var p := Push(k, st.heap, e);
    PopRemoves(k, p);
    Cancel(multiset(Pop(k, p)), multiset(st.heap), e);
  }

  /** Pushing the front once more leaves it in front. */
  lemma PushFront<T>(k: Keys<T>, s: seq<T>, x: T)
    requires s != [] && x == s[0]
    ensures Push(k, s, x)[0] == x
  {
    UpLeavesRoot(k, s + [x], |s|, x);
  }

  lemma {:induction false} UpLeavesRoot<T>(k: Keys<T>, s: seq<T>, i: nat, x: T)
    requires 0 < i < |s| && x == s[0]
    ensures Up(k, s, i, x)[0] == x
    decreases i
  {
    if Less(k, x, s[Parent(i)]) {
      UpLeavesRoot(k, s[i := s[Parent(i)]], Parent(i), x);
    }
  }

  lemma PopMembers(st: State)
    requires st.heap != []
    ensures multiset(st.heap) == multiset(PopFront(st).heap) + multiset{st.heap[0]}
  {
    PopRemoves(KeysOf(st.live), st.heap);
  }

  lemma RescheduleReady(st: State, last: nat, clock: nat -> nat)
    requires GoesOn(st, last) && Ticks(clock, last) && Paced(st, last)
    requires st.heap[0] in st.live && st.live[st.heap[0]].loop
    ensures var t := Reschedule(st, clock);
      Paced(t, last) && Ready(t, last) == Ready(st, last) - {st.heap[0]} && st.heap[0] in Ready(st, last)
  {
    hide Push, Pop;
    var t := Reschedule(st, clock);
    RescheduleMembers(st, clock);
    HeapMembers(st.heap, t.heap);
    HeapMembers(t.heap, st.heap);
    assert last < t.live[st.heap[0]].next;
  }

  lemma PopReady(st: State, last: nat)
    requires st.heap != []
    ensures Ready(PopFront(st), last) <= Ready(st, last) && (Paced(st, last) ==> Paced(PopFront(st), last))
  {
    hide Push, Pop;
    PopMembers(st);
    HeapMembers(st.heap, PopFront(st).heap);
  }

  /** Each pass leaves fewer ready entries, or no more in a smaller heap. */
  lemma LaunchProgress(st: State, last: nat, clock: nat -> nat)
    requires GoesOn(st, last) && Ticks(clock, last) && Paced(st, last)
    ensures var t := LaunchOne(st, clock);
      && Paced(t, last)
      && (Ready(t, last) < Ready(st, last) || (Ready(t, last) <= Ready(st, last) && |t.heap| < |st.heap|))
  {
    hide Push, Pop, Ready, Reschedule, Paced;
    var e := st.heap[0];
    var t := LaunchOne(st, clock);
    if e !in st.live {
      PopReady(st, last);
    } else {
      var fired := if st.live[e].suspended then st else st.(fired := st.fired + [e]);
      SameReady(st, fired, last);
      if st.live[e].loop {
        RescheduleReady(fired, last, clock);
      } else {
        PopReady(fired, last);
        SameReady(PopFront(st), t, last);
      }
    }
  }

  lemma SameReady(st: State, t: State, last: nat)
    requires t.heap == st.heap && t.live == st.live
    ensures Ready(t, last) == Ready(st, last) && Paced(t, last) == Paced(st, last)
  {
  }

  /** `Timer::Launch`; `last` is what the clock reads first. */
  ghost function Launch(st: State, last: nat, clock: nat -> nat): (t: State)
    requires Ticks(clock, last) && Paced(st, last)
    decreases Ready(st, last), |st.heap|
  {
    if !GoesOn(st, last) then st else
    LaunchProgress(st, last, clock);
    Launch(LaunchOne(st, clock), last, clock)
  }

  /** The timers that `Launch` appends to the active list. */
  ghost function Fires(st: State, last: nat, clock: nat -> nat): seq<TimerEvent>
    requires Ticks(clock, last) && Paced(st, last)
    decreases Ready(st, last), |st.heap|
  {
    if !GoesOn(st, last) then [] else
    LaunchProgress(st, last, clock);
    var now := if st.heap[0] in st.live && !st.live[st.heap[0]].suspended then [st.heap[0]] else [];
    now + Fires(LaunchOne(st, clock), last, clock)
  }

  lemma LaunchStops(st: State, last: nat, clock: nat -> nat)
    requires Ticks(clock, last) && Paced(st, last) && !GoesOn(st, last)
    ensures Launch(st, last, clock) == st && Fires(st, last, clock) == []
  {
  }

  // ---------------------------------------------------------------- what a launch takes

  predicate Distinct(s: seq<TimerEvent>) { forall e | e in s :: multiset(s)[e] == 1 }

  /** The entry is expired or due. */
  predicate IsReady(st: State, last: nat, e: TimerEvent) {
    e in st.heap && (e in st.live ==> st.live[e].next <= last)
  }

  /** Ready in `st`, and no longer so in `t`. */
  predicate Taken(st: State, t: State, last: nat, e: TimerEvent) { IsReady(st, last, e) && !IsReady(t, last, e) }

  lemma SameMembers(s: seq<TimerEvent>, t: seq<TimerEvent>)
    requires multiset(s) == multiset(t)
    ensures forall e :: e in s <==> e in t
    ensures Distinct(s) ==> Distinct(t)
  {
    HeapMembers(s, t);
    HeapMembers(t, s);
  }

  lemma LessOne(s: seq<TimerEvent>, t: seq<TimerEvent>, e: TimerEvent)
    requires multiset(s) == multiset(t) + multiset{e} && Distinct(s)
    ensures Distinct(t) && forall x :: x in t <==> x in s && x != e
  {
    assert e in multiset(s);
    assert multiset(s)[e] == 1;
    forall x ensures x in t <==> x in s && x != e {
      assert x in t <==> x in multiset(t);
      assert x in s <==> x in multiset(s);
    }
  }

  /** One pass: the front leaves the heap, unless it is alive and loops. */
  lemma StepMembers(st: State, clock: nat -> nat)
    requires Distinct(st.heap) && st.heap != []
    ensures var e, t := st.heap[0], LaunchOne(st, clock);
      && Distinct(t.heap)
      && (forall x :: x in t.heap <==> x in st.heap && (x == e ==> e in st.live && st.live[e].loop))
  {
    hide Push, Pop, Distinct;
    var e, t := st.heap[0], LaunchOne(st, clock);
    if e in st.live && st.live[e].loop {
      RescheduleMembers(st, clock);
      SameMembers(st.heap, t.heap);
    } else {
      PopMembers(st);
      LessOne(st.heap, t.heap, e);
    }
  }

  /** One pass: of all fields only the deadline of a front that is alive and loops changes. */
  lemma StepLive(st: State, clock: nat -> nat)
    requires st.heap != []
    ensures var e, t := st.heap[0], LaunchOne(st, clock);
      && t.live.Keys == st.live.Keys
      && (forall x | x in st.live && (x != e || !st.live[e].loop) :: t.live[x] == st.live[x])
      && (e in st.live && st.live[e].loop ==>
            t.live[e] == st.live[e].(next := clock(st.tick) + st.live[e].timeout) && t.tick == st.tick + 1)
      && (!(e in st.live && st.live[e].loop) ==> t.tick == st.tick)
      && t.owned == st.owned - (if e in st.live && st.live[e].suspended && !st.live[e].loop then {e.id} else {})
  {
    hide Push, Pop;
  }

  /** One pass takes the front and no other entry. */
  lemma StepTakes(st: State, last: nat, clock: nat -> nat)
    requires Distinct(st.heap) && GoesOn(st, last) && Ticks(clock, last) && Paced(st, last)
    ensures var e, t := st.heap[0], LaunchOne(st, clock);
      && IsReady(st, last, e) && (forall x :: IsReady(t, last, x) <==> IsReady(st, last, x) && x != e)
  {
    hide LaunchOne, Distinct;
    StepMembers(st, clock);
    StepLive(st, clock);
  }

  lemma TakenLater(st: State, u: State, t: State, last: nat, e: TimerEvent)
    requires IsReady(st, last, e) && forall x :: IsReady(u, last, x) <==> IsReady(st, last, x) && x != e
    requires forall x :: IsReady(t, last, x) ==> IsReady(u, last, x)
    ensures forall x :: IsReady(t, last, x) ==> IsReady(st, last, x)
    ensures forall x :: Taken(st, t, last, x) <==> x == e || Taken(u, t, last, x)
  {
  }

  /** `Launch`, expired entries or not: it stops at a front that is alive and not due, or at an
      empty heap; nothing has become ready; the entries that it took have left the heap,
      except the live ones that loop; and only those have changed, to a deadline after the
      time of the launch. */
  lemma {:induction false} LaunchTakes(st: State, last: nat, clock: nat -> nat)
    requires Distinct(st.heap) && Ticks(clock, last) && Paced(st, last)
    ensures var t := Launch(st, last, clock);
      && Distinct(t.heap) && !GoesOn(t, last)
      && (forall e :: IsReady(t, last, e) ==> IsReady(st, last, e))
      && (forall e :: e in t.heap <==> e in st.heap && (Taken(st, t, last, e) ==> e in st.live && st.live[e].loop))
      && t.live.Keys == st.live.Keys
      && (forall e | e in st.live && !(Taken(st, t, last, e) && st.live[e].loop) :: t.live[e] == st.live[e])
      && (forall e | e in st.live && Taken(st, t, last, e) && st.live[e].loop ::
            last < t.live[e].next && t.live[e] == st.live[e].(next := t.live[e].next))
    decreases Ready(st, last), |st.heap|
  {
    hide LaunchOne, Distinct, Ready, IsReady, Taken;
    if GoesOn(st, last) {
      var e, u := st.heap[0], LaunchOne(st, clock);
      LaunchProgress(st, last, clock);
      StepTakes(st, last, clock);
      StepMembers(st, clock);
      StepLive(st, clock);
      LaunchTakes(u, last, clock);
      var t := Launch(u, last, clock);
      TakenLater(st, u, t, last, e);
      FrontTaken(st, u, t, last, e);
    } else {
      NoneTaken(st, last);
    }
  }

  lemma NoneTaken(st: State, last: nat)
    ensures forall e :: !Taken(st, st, last, e)
  {
  }

  lemma FrontTaken(st: State, u: State, t: State, last: nat, e: TimerEvent)
    requires IsReady(st, last, e) && forall x :: IsReady(u, last, x) <==> IsReady(st, last, x) && x != e
    ensures !Taken(u, t, last, e) && (e in st.live ==> st.live[e].next <= last)
    ensures e in u.heap && e in u.live ==> last < u.live[e].next
  {
  }

  lemma {:induction false} LaunchAppends(st: State, last: nat, clock: nat -> nat)
    requires Ticks(clock, last) && Paced(st, last)
    ensures Launch(st, last, clock).fired == st.fired + Fires(st, last, clock)
    decreases Ready(st, last), |st.heap|
  {
    hide Push, Pop, Ready, LaunchOne;
    if GoesOn(st, last) {
      LaunchProgress(st, last, clock);
      StepFired(st, clock);
      LaunchAppends(LaunchOne(st, clock), last, clock);
    }
  }

  lemma StepFired(st: State, clock: nat -> nat)
    requires st.heap != []
    ensures LaunchOne(st, clock).fired ==
      st.fired + (if st.heap[0] in st.live && !st.live[st.heap[0]].suspended then [st.heap[0]] else [])
  {
    hide Push, Pop;
  }

  predicate Once(ts: seq<TimerEvent>) { forall i, j | 0 <= i < j < |ts| :: ts[i] != ts[j] }

  lemma OnceCons(e: TimerEvent, ts: seq<TimerEvent>)
    requires Once(ts) && e !in ts
    ensures Once([e] + ts) && forall x :: x in [e] + ts <==> x == e || x in ts
    ensures [] + ts == ts
  {
  }

  /** `Launch` fires exactly what it took that is alive and not suspended, each once. So
      whatever has expired in the heap, it never fires a timer that is not due, that is
      suspended or that is gone, and none twice. */
  lemma {:induction false} LaunchFiresTaken(st: State, last: nat, clock: nat -> nat)
    requires Distinct(st.heap) && Ticks(clock, last) && Paced(st, last)
    ensures var ts, t := Fires(st, last, clock), Launch(st, last, clock);
      && Once(ts)
      && (forall e :: e in ts <==> Taken(st, t, last, e) && e in st.live && !st.live[e].suspended)
      && (forall e | e in ts :: Due(st, last, e))
    decreases Ready(st, last), |st.heap|
  {
    hide LaunchOne, Distinct, Ready, IsReady, Once;
    LaunchTakes(st, last, clock);
    if GoesOn(st, last) {
      var e, u := st.heap[0], LaunchOne(st, clock);
      LaunchProgress(st, last, clock);
      StepTakes(st, last, clock);
      StepMembers(st, clock);
      StepLive(st, clock);
      LaunchFiresTaken(u, last, clock);
      LaunchTakes(u, last, clock);
      var t := Launch(u, last, clock);
      TakenLater(st, u, t, last, e);
      FrontTaken(st, u, t, last, e);
      OnceCons(e, Fires(u, last, clock));
      TakenDue(st, t, last);
    } else {
      NoneTaken(st, last);
      NoneFired();
    }
  }

  lemma NoneFired()
    ensures Once([])
  {
  }

  lemma TakenDue(st: State, t: State, last: nat)
    ensures forall e | Taken(st, t, last, e) && e in st.live :: Due(st, last, e)
  {
  }

  /** The ids of what was taken alive, suspended and without loop. */
  function Disowned(st: State, t: State, last: nat): set<int> {
    set e | e in st.heap && Taken(st, t, last, e) && e in st.live && st.live[e].suspended && !st.live[e].loop :: e.id
  }

  /** The timer map loses exactly what was taken alive, suspended and without loop. */
  lemma {:induction false} LaunchDisownsTaken(st: State, last: nat, clock: nat -> nat)
    requires Distinct(st.heap) && Ticks(clock, last) && Paced(st, last)
    ensures Launch(st, last, clock).owned == st.owned - Disowned(st, Launch(st, last, clock), last)
    decreases Ready(st, last), |st.heap|
  {
    hide LaunchOne, Distinct, Ready, IsReady;
    LaunchTakes(st, last, clock);
    if GoesOn(st, last) {
      var e, u := st.heap[0], LaunchOne(st, clock);
      LaunchProgress(st, last, clock);
      StepTakes(st, last, clock);
      StepMembers(st, clock);
      StepLive(st, clock);
      LaunchDisownsTaken(u, last, clock);
      LaunchTakes(u, last, clock);
      var t := Launch(u, last, clock);
      TakenLater(st, u, t, last, e);
      FrontTaken(st, u, t, last, e);
      var gone, gone' := Disowned(st, t, last), Disowned(u, t, last);
      var now := if e in st.live && st.live[e].suspended && !st.live[e].loop then {e.id} else {};
      assert gone == gone' + now;
      TwoSteps(st.owned, now, gone');
    } else {
      NoneTaken(st, last);
    }
  }

  lemma TwoSteps(m: map<int, TimerEvent>, a: set<int>, b: set<int>)
    ensures (m - a) - b == m - (b + a)
  {
  }

  /** What a reading of the clock, from the `lo`-th on and before the `hi`-th, makes of a timeout. */
  ghost predicate ReadBetween(clock: nat -> nat, lo: nat, hi: nat, timeout: nat, next: nat) {
    exists k: nat :: lo <= k < hi && next == clock(k) + timeout
  }

  lemma ReadLater(clock: nat -> nat, lo: nat, hi: nat, lo': nat, hi': nat, timeout: nat, next: nat)
    requires ReadBetween(clock, lo, hi, timeout, next) && lo' <= lo && hi <= hi'
    ensures ReadBetween(clock, lo', hi', timeout, next)
  {
  }

  lemma StepReads(st: State, clock: nat -> nat)
    requires st.heap != []
    ensures var e, t := st.heap[0], LaunchOne(st, clock);
      && st.tick <= t.tick
      && (e in st.live && st.live[e].loop ==>
            e in t.live && ReadBetween(clock, st.tick, t.tick, st.live[e].timeout, t.live[e].next))
  {
    hide LaunchOne;
    StepLive(st, clock);
  }

  /** Each loop timer that was taken goes on from a reading of the clock made during the launch. */
  lemma {:induction false} LaunchRekeys(st: State, last: nat, clock: nat -> nat)
    requires Distinct(st.heap) && Ticks(clock, last) && Paced(st, last)
    ensures var t := Launch(st, last, clock);
      && st.tick <= t.tick && t.live.Keys == st.live.Keys
      && forall e | e in st.live && Taken(st, t, last, e) && st.live[e].loop ::
           ReadBetween(clock, st.tick, t.tick, st.live[e].timeout, t.live[e].next)
    decreases Ready(st, last), |st.heap|
  {
    hide LaunchOne, Distinct, Ready, IsReady, Taken, ReadBetween;
    LaunchTakes(st, last, clock);
    if GoesOn(st, last) {
      var e, u := st.heap[0], LaunchOne(st, clock);
      LaunchProgress(st, last, clock);
      StepTakes(st, last, clock);
      StepMembers(st, clock);
      StepLive(st, clock);
      StepReads(st, clock);
      LaunchRekeys(u, last, clock);
      LaunchTakes(u, last, clock);
      var t := Launch(u, last, clock);
      TakenLater(st, u, t, last, e);
      FrontTaken(st, u, t, last, e);
      forall x | x in st.live && Taken(st, t, last, x) && st.live[x].loop
        ensures ReadBetween(clock, st.tick, t.tick, st.live[x].timeout, t.live[x].next)
      {
        if x == e {
          ReadLater(clock, st.tick, u.tick, st.tick, t.tick, st.live[x].timeout, t.live[x].next);
        } else {
          ReadLater(clock, u.tick, t.tick, st.tick, t.tick, st.live[x].timeout, t.live[x].next);
        }
      }
    } else {
      NoneTaken(st, last);
    }
  }

  // ---------------------------------------------------------------- no expired entries

  /** A heap of distinct timers, all of them alive. */
  predicate Good(st: State) {
    && AllLive(KeysOf(st.live), st.heap) && IsHeap(KeysOf(st.live), st.heap)
    && Distinct(st.heap)
  }

  /** The front has the least deadline, so if it is not due nothing is. */
  lemma FrontLeast(st: State, e: TimerEvent)
    requires Good(st) && e in st.heap
    ensures st.heap[0] in st.live && e in st.live && st.live[st.heap[0]].next <= st.live[e].next
  {
    hide IsHeap;
    var i :| 0 <= i < |st.heap| && st.heap[i] == e;
    RootLeast(KeysOf(st.live), st.heap, i);
  }

  lemma KeysAfter(live: map<TimerEvent, Info>, e: TimerEvent, i: Info)
    ensures KeysOf(live[e := i]) == KeysOf(live)[e := i.next]
  {
  }

  /** Rescheduling a due front keeps the heap, as long as the clock does not run backwards. */
  lemma RescheduleGood(st: State, last: nat, clock: nat -> nat)
    requires Good(st) && GoesOn(st, last) && Ticks(clock, last)
    ensures Good(Reschedule(st, clock))
  {
    hide Push, Pop, IsHeap;
    var e := st.heap[0];
    var key := clock(st.tick) + st.live[e].timeout;
    Reschedules(KeysOf(st.live), st.heap, key);
    KeysAfter(st.live, e, st.live[e].(next := key));
    var t := Reschedule(st, clock);
    SameMembers(st.heap, t.heap);
    LiveMembers(KeysOf(t.live), st.heap, t.heap);
  }

  lemma OrderedFrom<T>(k: Keys<T>, s: seq<T>)
    requires IsHeap(k, s)
    ensures Ordered(k, s, 1)
  {
  }

  lemma PopGood(st: State)
    requires Good(st) && st.heap != []
    ensures Good(PopFront(st))
  {
    hide Push, Pop, IsHeap, Ordered;
    var k, e, t := KeysOf(st.live), st.heap[0], PopFront(st);
    OrderedFrom(k, st.heap);
    PopOrders(k, st.heap);
    PopMembers(st);
    LessOne(st.heap, t.heap, e);
    LiveMembers(k, st.heap, t.heap);
  }

  lemma StepGood(st: State, last: nat, clock: nat -> nat)
    requires Good(st) && GoesOn(st, last) && Ticks(clock, last)
    ensures Good(LaunchOne(st, clock))
  {
    hide Push, Pop, IsHeap, Distinct, AllLive;
    var e := st.heap[0];
    FrontLeast(st, e);
    if st.live[e].loop {
      RescheduleGood(st, last, clock);
    } else {
      PopGood(st);
    }
  }

  lemma {:induction false} LaunchGood(st: State, last: nat, clock: nat -> nat)
    requires Good(st) && Ticks(clock, last) && Paced(st, last)
    ensures Good(Launch(st, last, clock))
    decreases Ready(st, last), |st.heap|
  {
    hide Good, LaunchOne, Ready;
    if GoesOn(st, last) {
      StepGood(st, last, clock);
      LaunchProgress(st, last, clock);
      LaunchGood(LaunchOne(st, clock), last, clock);
    }
  }

  lemma NothingDue(st: State, last: nat)
    requires Good(st) && !GoesOn(st, last)
    ensures forall e :: !IsReady(st, last, e)
  {
    hide IsHeap;
    forall e | e in st.heap ensures !IsReady(st, last, e) {
      FrontLeast(st, e);
    }
  }

  /** `Launch` of a heap with no expired entries: it stays a heap, no entry of it is due any
      more, and what it took is exactly what was due. With `LaunchTakes` this says which
      timers have left and which have changed. */
  lemma LaunchExact(st: State, last: nat, clock: nat -> nat)
    requires Good(st) && Ticks(clock, last) && Paced(st, last)
    ensures var t := Launch(st, last, clock);
      && Good(t) && (forall e | e in t.heap :: e in t.live && last < t.live[e].next)
      && (forall e :: Taken(st, t, last, e) <==> Due(st, last, e))
      && (forall e :: e in t.heap <==> e in st.heap && (Due(st, last, e) ==> st.live[e].loop))
  {
    hide Launch, IsHeap, Distinct, Ready;
    LaunchTakes(st, last, clock);
    LaunchGood(st, last, clock);
    var t := Launch(st, last, clock);
    NothingDue(t, last);
    forall e | e in t.heap ensures e in t.live && last < t.live[e].next {
      FrontLeast(t, e);
    }
    forall e | e in st.heap ensures e in st.live {
      FrontLeast(st, e);
    }
  }

  /** Deadlines never decrease. */
  predicate ByDeadline(live: map<TimerEvent, Info>, ts: seq<TimerEvent>) {
    && (forall i | 0 <= i < |ts| :: ts[i] in live)
    && (forall i, j | 0 <= i < j < |ts| :: live[ts[i]].next <= live[ts[j]].next)
  }

  lemma ByDeadlineCons(live: map<TimerEvent, Info>, live': map<TimerEvent, Info>, e: TimerEvent, ts: seq<TimerEvent>)
    requires ByDeadline(live', ts) && e in live
    requires forall x | x in ts :: x in live && live'[x] == live[x] && live[e].next <= live[x].next
    ensures ByDeadline(live, ts) && ByDeadline(live, [e] + ts)
  {
  }

  /** Then `Launch` fires exactly the due timers that are not suspended, each once, by deadline. */
  lemma LaunchFires(st: State, last: nat, clock: nat -> nat)
    requires Good(st) && Ticks(clock, last) && Paced(st, last)
    ensures var ts := Fires(st, last, clock);
      && Once(ts) && ByDeadline(st.live, ts)
      && (forall e :: e in ts <==> Due(st, last, e) && !st.live[e].suspended)
  {
    hide Launch, Fires, IsHeap, AllLive, Distinct, Ready, Taken, ByDeadline;
    LaunchFiresTaken(st, last, clock);
    LaunchExact(st, last, clock);
    FiresByDeadline(st, last, clock);
  }

  lemma {:induction false} FiresByDeadline(st: State, last: nat, clock: nat -> nat)
    requires Good(st) && Ticks(clock, last) && Paced(st, last)
    ensures ByDeadline(st.live, Fires(st, last, clock))
    decreases Ready(st, last), |st.heap|
  {
    hide LaunchOne, IsHeap, AllLive, Distinct, Ready, ByDeadline;
    if GoesOn(st, last) {
      var e, u := st.heap[0], LaunchOne(st, clock);
      FrontLeast(st, e);
      StepGood(st, last, clock);
      StepTakes(st, last, clock);
      StepLive(st, clock);
      LaunchProgress(st, last, clock);
      FiresByDeadline(u, last, clock);
      LaunchFiresTaken(u, last, clock);
      var ts := Fires(u, last, clock);
      forall x | x in ts ensures x in st.live && u.live[x] == st.live[x] && st.live[e].next <= st.live[x].next {
        assert IsReady(u, last, x);
        FrontLeast(st, x);
      }
      ByDeadlineCons(st.live, u.live, e, ts);
      assert [] + ts == ts;
    } else {
      assert ByDeadline(st.live, []) by { EmptyByDeadline(st.live); }
    }
  }

  lemma EmptyByDeadline(live: map<TimerEvent, Info>)
    ensures ByDeadline(live, [])
  {
  }

  // ---------------------------------------------------------------- the poller's timeout

  /** The cast of a 64-bit difference to `int`. */
  function Int32(d: int): int {
    var low := d % 0x1_0000_0000;
    if low < 0x8000_0000 then low else low - 0x1_0000_0000
  }

  function GetNextTimeout(st: State, now: nat): int {
    if st.heap == [] then -1
    else if st.heap[0] !in st.live then 0
    else
      var timeout := Int32(st.live[st.heap[0]].next - now);
      if timeout > 0 then timeout else 0
  }

  /** How long the poller is to wait for deadline `t`. */
  function WaitFor(now: nat, t: nat): nat { if t <= now then 0 else t - now }

  /** The cast keeps the wait: at most 2^31 - 1 ms to come, and for a deadline that has passed
      a difference that does not turn positive. */
  predicate WaitFits(now: nat, t: nat) {
    if now < t then t - now < 0x8000_0000
    else (t - now) % 0x1_0000_0000 == 0 || 0x8000_0000 <= (t - now) % 0x1_0000_0000
  }

  /** The poller waits for the front's deadline, whatever else is in the heap, if and only if
      the wait survives the cast. Timeouts go up to 2^32 - 1, so it may not. */
  lemma WaitsForFront(st: State, now: nat)
    requires st.heap != [] && st.heap[0] in st.live
    ensures var t := st.live[st.heap[0]].next;
      GetNextTimeout(st, now) == WaitFor(now, t) <==> WaitFits(now, t)
  {
  }

  /** The least deadline of the heap. */
  predicate Earliest(st: State, t: nat) {
    && (exists e | e in st.heap && e in st.live :: st.live[e].next == t)
    && (forall e | e in st.heap && e in st.live :: t <= st.live[e].next)
  }

  /** With no expired entries that is the earliest deadline of all. */
  lemma WaitsForEarliest(st: State, now: nat, t: nat)
    requires Good(st) && Earliest(st, t)
    ensures GetNextTimeout(st, now) == WaitFor(now, t) <==> WaitFits(now, t)
  {
    hide IsHeap, GetNextTimeout, WaitFits;
    var e :| e in st.heap && e in st.live && st.live[e].next == t;
    FrontLeast(st, e);
    assert st.heap[0] in st.heap;
    WaitsForFront(st, now);
  }
}
