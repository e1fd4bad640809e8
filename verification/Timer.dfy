/** `MinHeap` of timers and `chaos::Timer` itself, updated in place, proved against the
    values of `Heaps` and `Timers`. */
module TimerObjects {
  import opened Heaps
  import opened Timers

  /** The keys that timers compare by, as a value. */
  ghost function KeysNow(known: set<TimerEvent>): (k: Keys<TimerEvent>)
    reads known
    ensures k.Keys == set e | e in known && e.alive
  {
    map e | e in known && e.alive :: e.nextTime
  }

  /** `TimerCmp`: both are locked, and compared by deadline. */
  function TimerCmp(l: TimerEvent, r: TimerEvent): bool
    reads l, r
  {
    l.alive && r.alive && l.nextTime < r.nextTime
  }

  class MinHeap {
    var heap: array<TimerEvent>
    var totalSize: nat
    var curSize: nat

    /** The elements, in array order. */
    ghost function Contents(): (s: seq<TimerEvent>)
      requires curSize <= heap.Length
      reads this, heap
    {
      heap[..curSize]
    }

    ghost predicate Valid()
      reads this, heap
    {
      curSize <= totalSize == heap.Length
    }

    /** All elements are among the timers of `known`. */
    ghost predicate Holds(known: set<TimerEvent>)
      reads this, heap
    {
      Valid() && forall i | 0 <= i < curSize :: heap[i] in known
    }

    constructor ()
      ensures Valid() && fresh(heap) && curSize == 0
    {
      heap := new TimerEvent[0];
      totalSize, curSize := 0, 0;
    }

    /** Doubles the array, 64 places at first. Unused places hold anything. */
    method Expand(filler: TimerEvent)
      requires Valid() && curSize == totalSize
      modifies this`heap, this`totalSize
      ensures Valid() && fresh(heap) && curSize < totalSize && Contents() == old(Contents())
      ensures totalSize == if old(totalSize) == 0 then 64 else 2 * old(totalSize)
    {
      if totalSize == 0 { totalSize := 32; }
      totalSize := 2 * totalSize;
      var pHeap := new TimerEvent[totalSize](_ => filler);
      for i := 0 to curSize
        invariant heap == old(heap) && curSize == old(curSize) && totalSize == pHeap.Length
        invariant pHeap[..i] == old(heap[..i])
      {
        pHeap[i] := heap[i];
      }
      heap := pHeap;
    }

    method SetAt(i: nat, node: TimerEvent, ghost known: set<TimerEvent>)
      requires Holds(known) && i < curSize && node in known
      modifies heap
      ensures Holds(known) && Contents() == old(Contents())[i := node]
    {
      heap[i] := node;
    }

    /** The element at `pos`, counted from 1, rises. */
    method ShiftUp(pos: nat, ghost known: set<TimerEvent>)
      requires Holds(known) && 0 < pos <= curSize
      modifies heap
      ensures Holds(known)
      ensures Contents() == Up(KeysNow(known), old(Contents()), pos - 1, old(heap[pos - 1]))
    {
      hide Up;
      ghost var k := KeysNow(known);
      var node, p := heap[pos - 1], pos;
      ghost var goal := Up(k, Contents(), pos - 1, node);
      while p / 2 >= 1 && TimerCmp(node, heap[p / 2 - 1])
        invariant 0 < p <= pos && Holds(known) && KeysNow(known) == k
        invariant Up(k, Contents(), p - 1, node) == goal
      {
        assert Parent(p - 1) == p / 2 - 1;
        UpGoes(k, Contents(), p - 1, node);
        SetAt(p - 1, heap[p / 2 - 1], known);
        p := p / 2;
      }
      UpEnds(k, Contents(), p - 1, node);
      SetAt(p - 1, node, known);
    }
  
    /** The lesser child of `pos`, counted from 1; the right one unless the left is less. */
    function Compare(pos: nat, ghost known: set<TimerEvent>): (child: nat)
      requires Holds(known) && 0 < pos && 2 * pos <= curSize
      reads this, heap, known
      ensures child - 1 == Pick(KeysNow(known), Contents(), pos - 1)
    {
      if 2 * pos + 1 > curSize then 2 * pos
      else if TimerCmp(heap[2 * pos - 1], heap[2 * pos]) then 2 * pos
      else 2 * pos + 1
    }

    /** Moves the lesser child up if it is less than `node`. */
    method SinkOne(p: nat, node: TimerEvent, ghost known: set<TimerEvent>) returns (next: nat)
      requires Holds(known) && 0 < p <= curSize && node in known
      modifies heap
      ensures Holds(known) && p <= next <= curSize
      ensures var k := KeysNow(known);
        && Down(k, Contents(), next - 1, node) == Down(k, old(Contents()), p - 1, node)
        && (next == p ==> Down(k, Contents(), p - 1, node) == Contents()[p - 1 := node])
    {
      hide Down, Pick;
      ghost var k, s := KeysNow(known), Contents();
      next := p;
      if 2 * p <= curSize {
        var child := Compare(p, known);
        if TimerCmp(heap[child - 1], node) {
          DownGoes(k, s, p - 1, node);
          SetAt(p - 1, heap[child - 1], known);
          return child;
        }
      }
      DownEnds(k, s, p - 1, node);
    }

    /** The element at `pos` sinks. */
    method ShiftDown(pos: nat, ghost known: set<TimerEvent>)
      requires Holds(known) && 0 < pos
      modifies heap
      ensures Holds(known)
      ensures pos <= curSize ==> Contents() == Down(KeysNow(known), old(Contents()), pos - 1, old(heap[pos - 1]))
      ensures pos > curSize ==> Contents() == old(Contents())
    {
      hide Down, Pick, KeysNow;
      if pos > curSize { return; }
      ghost var k := KeysNow(known);
      var node := heap[pos - 1];
      ghost var goal := Down(k, Contents(), pos - 1, node);
      var p := pos;
      var next := SinkOne(p, node, known);
      while next != p
        invariant 0 < p <= next <= curSize && Holds(known) && KeysNow(known) == k
        invariant Down(k, Contents(), next - 1, node) == goal
        invariant next == p ==> goal == Contents()[p - 1 := node]
        decreases curSize - p, next - p
      {
        p := next;
        next := SinkOne(p, node, known);
      }
      SetAt(p - 1, node, known);
    }

    method Push(node: TimerEvent, ghost known: set<TimerEvent>)
      requires Holds(known) && node in known
      modifies this, heap
      ensures Holds(known) && (heap == old(heap) || fresh(heap))
      ensures Contents() == Heaps.Push(KeysNow(known), old(Contents()), node)
    {
      ghost var s := Contents();
      if curSize >= totalSize { Expand(node); }
      curSize := curSize + 1;
      heap[curSize - 1] := node;
      assert Contents() == s + [node];
      ShiftUp(curSize, known);
    }

    /** `Erase(1)`. */
    method Pop(ghost known: set<TimerEvent>)
      requires Holds(known)
      modifies this`curSize, heap
      ensures Holds(known) && Contents() == Heaps.Pop(KeysNow(known), old(Contents()))
    {
      if curSize == 0 { return; }
      ghost var s := Contents();
      heap[0] := heap[curSize - 1];
      curSize := curSize - 1;
      assert curSize > 0 ==> Contents() == [s[|s| - 1]] + s[1..|s| - 1];
      ShiftDown(1, known);
    }
  }

  class Timer {
    const timers: MinHeap
    var timerMap: map<int, TimerEvent>
    var curTimers: int
    var activeEvs: seq<TimerEvent>  // the list that `Launch` is given
    var tick: nat                   // how often the clock has been read

    ghost var known: set<TimerEvent>  // every timer object of the program

    ghost function Live(): (live: map<TimerEvent, Info>)
      reads this, known
    {
      map e | e in known && e.alive :: Info(e.nextTime, e.timeoutMs, e.isLoop, e.isSuspend)
    }

    ghost function Abs(): State
      requires timers.Valid()
      reads this, known, timers, timers.heap
    {
      State(timers.Contents(), Live(), timerMap, curTimers, activeEvs, tick)
    }

    ghost predicate Valid()
      reads this, known, timers, timers.heap
    {
      timers.Holds(known)
    }

    constructor ()
      ensures Valid() && fresh(timers) && fresh(timers.heap) && known == {}
      ensures timers.Contents() == [] && timerMap == map[] && activeEvs == []
    {
      timers := new MinHeap();
      timerMap, curTimers, activeEvs, tick, known := map[], 0, [], 0, {};
    }

    /** A new timer object becomes known. */
    ghost method Admit(e: TimerEvent)
      requires Valid() && e !in known && e.alive
      modifies this`known
      ensures Valid() && known == old(known) + {e}
      ensures Abs() == old(Abs()).(live :=
        old(Abs()).live[e := Info(e.nextTime, e.timeoutMs, e.isLoop, e.isSuspend)])
    {
      known := known + {e};
      assert Live() == old(Live())[e := Info(e.nextTime, e.timeoutMs, e.isLoop, e.isSuspend)];
    }

    lemma KeysAre()
      ensures KeysOf(Live()) == KeysNow(known)
    {
    }

    method Push(e: TimerEvent)
      requires Valid() && e in known
      modifies timers, timers.heap
      ensures Valid() && (timers.heap == old(timers.heap) || fresh(timers.heap))
      ensures Abs() == old(Abs()).(heap := Heaps.Push(KeysOf(old(Abs()).live), old(Abs()).heap, e))
    {
      hide Heaps.Push, KeysOf, KeysNow;
      KeysAre();
      timers.Push(e, known);
    }

    method Pop()
      requires Valid()
      modifies timers, timers.heap
      ensures Valid() && timers.heap == old(timers.heap)
      ensures Abs() == PopFront(old(Abs()))
    {
      hide Heaps.Pop, KeysOf, KeysNow;
      KeysAre();
      timers.Pop(known);
    }

    method AddTimer(e: TimerEvent) returns (ret: int)
      requires Valid() && e in known
      modifies this`timerMap, this`curTimers, timers, timers.heap
      ensures Valid() && Abs() == Timers.AddTimer(old(Abs()), e)
      ensures ret == if e.id in old(timerMap) then -1 else 0
    {
      hide Heaps.Push, KeysOf;
      if e.id in timerMap { return -1; }
      timerMap := timerMap[e.id := e];
      assert Abs() == old(Abs()).(owned := timerMap);
      Push(e);
      curTimers := curTimers + 1;
      return 0;
    }

    method DelTimer(e: TimerEvent)
      requires Valid()
      modifies this`timerMap, this`curTimers
      ensures Valid() && Abs() == Timers.DelTimer(old(Abs()), e)
    {
      timerMap := timerMap - {e.id};
      curTimers := curTimers - 1;
    }

    /** `SetNextTime`, with what the clock reads. */
    method SetNextTime(e: TimerEvent, clock: nat -> nat)
      requires Valid() && e in known && e.alive
      modifies this`tick, e`nextTime
      ensures Valid()
      ensures var st := old(Abs());
        Abs() == st.(live := st.live[e := st.live[e].(next := clock(st.tick) + st.live[e].timeout)], tick := st.tick + 1)
    {
      e.nextTime := clock(tick) + e.timeoutMs;
      tick := tick + 1;
      assert Live() == old(Live())[e := old(Live())[e].(next := e.nextTime)];
    }

    method Reschedule(e: TimerEvent, clock: nat -> nat)
      requires Valid() && 0 < timers.curSize && e == timers.heap[0] && e.alive
      modifies this`tick, e`nextTime, timers, timers.heap
      ensures Valid() && Abs() == Timers.Reschedule(old(Abs()), clock)
      ensures timers.heap == old(timers.heap) || fresh(timers.heap)
    {
      hide Heaps.Pop, Heaps.Push, KeysOf, Timers.Reschedule, PopFront;
      ghost var st := Abs();
      SetNextTime(e, clock);
      ghost var rekeyed := Abs();
      Push(e);
      RescheduleIs(st, clock, rekeyed, Abs());
      Pop();
    }

    /** One pass of the loop in `Launch`, over a front that is expired or due. */
    method LaunchOne(e: TimerEvent, clock: nat -> nat)
      requires Valid() && 0 < timers.curSize && e == timers.heap[0]
      modifies this, e`nextTime, timers, timers.heap
      ensures Valid() && known == old(known) && Abs() == Timers.LaunchOne(old(Abs()), clock)
      ensures timers.heap == old(timers.heap) || fresh(timers.heap)
    {
      hide Heaps.Pop, Heaps.Push, Timers.Reschedule, PopFront;
      if !e.alive {
        Pop();
        return;
      }
      if e.isSuspend {
        if e.isLoop {
          Reschedule(e, clock);
        } else {
          DelTimer(e);
          Pop();
        }
        return;
      }
      activeEvs := activeEvs + [e];
      assert Abs() == old(Abs()).(fired := old(Abs()).fired + [e]);
      if e.isLoop {
        Reschedule(e, clock);
      } else {
        Pop();
      }
    }

    method Launch(last: nat, clock: nat -> nat)
      requires Valid() && Ticks(clock, last) && Paced(Abs(), last)
      modifies this, known, timers, timers.heap
      ensures Valid() && known == old(known) && Abs() == Timers.Launch(old(Abs()), last, clock)
    {
      hide Heaps.Pop, Heaps.Push, Timers.Reschedule, PopFront, Timers.LaunchOne, Ready;
      ghost var goal := Timers.Launch(Abs(), last, clock);
      while timers.curSize > 0 && (timers.heap[0].alive ==> timers.heap[0].nextTime <= last)
        invariant Valid() && known == old(known) && Paced(Abs(), last)
        invariant timers.heap == old(timers.heap) || fresh(timers.heap)
        invariant Timers.Launch(Abs(), last, clock) == goal
        decreases Ready(Abs(), last), |Abs().heap|
      {
        LaunchProgress(Abs(), last, clock);
        LaunchOne(timers.heap[0], clock);
      }
    }

    method GetNextTimeout(now: nat) returns (r: int)
      requires Valid()
      ensures r == Timers.GetNextTimeout(Abs(), now)
    {
      if timers.curSize == 0 { return -1; }
      if !timers.heap[0].alive { return 0; }
      var timeout := Int32(timers.heap[0].nextTime - now);
      return if timeout > 0 then timeout else 0;
    }
  }

  /** Rescheduling, step by step. */
  lemma RescheduleIs(st: State, clock: nat -> nat, rekeyed: State, pushed: State)
    requires st.heap != [] && st.heap[0] in st.live
    requires rekeyed == st.(
      live := st.live[st.heap[0] := st.live[st.heap[0]].(next := clock(st.tick) + st.live[st.heap[0]].timeout)],
      tick := st.tick + 1)
    requires pushed == rekeyed.(heap := Heaps.Push(KeysOf(rekeyed.live), st.heap, st.heap[0]))
    ensures PopFront(pushed) == Reschedule(st, clock)
  {
  }

  lemma UpGoes(k: Keys<TimerEvent>, s: seq<TimerEvent>, i: nat, x: TimerEvent)
    requires 0 < i < |s| && Less(k, x, s[Parent(i)])
    ensures Up(k, s, i, x) == Up(k, s[i := s[Parent(i)]], Parent(i), x)
  {
  }

  lemma UpEnds(k: Keys<TimerEvent>, s: seq<TimerEvent>, i: nat, x: TimerEvent)
    requires i < |s| && (0 < i ==> !Less(k, x, s[Parent(i)]))
    ensures Up(k, s, i, x) == s[i := x]
  {
  }

  lemma DownGoes(k: Keys<TimerEvent>, s: seq<TimerEvent>, i: nat, x: TimerEvent)
    requires 2 * i + 1 < |s| && Less(k, s[Pick(k, s, i)], x)
    ensures Down(k, s, i, x) == Down(k, s[i := s[Pick(k, s, i)]], Pick(k, s, i), x)
  {
  }

  lemma DownEnds(k: Keys<TimerEvent>, s: seq<TimerEvent>, i: nat, x: TimerEvent)
    requires i < |s| && (2 * i + 1 < |s| ==> !Less(k, s[Pick(k, s, i)], x))
    ensures Down(k, s, i, x) == s[i := x]
  {
  }
}
