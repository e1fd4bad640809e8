/** `MinHeap`, an array heap with hole-based sifting, over elements whose keys may change.
    An element without a key is an expired weak pointer: it compares as less than nothing,
    and nothing as less than it. */
module Heaps {

  type Keys<!T> = map<T, nat>

  /** `TimerCmp`. */
  predicate Less<T>(k: Keys<T>, a: T, b: T) { a in k && b in k && k[a] < k[b] }

  function Parent(i: nat): (p: nat)
    requires 0 < i
    ensures p < i && (i == 2 * p + 1 || i == 2 * p + 2)
  {
    (i - 1) / 2
  }

  /** `ShiftUp`: `x` rises from the hole at `i`. */
  function Up<T>(k: Keys<T>, s: seq<T>, i: nat, x: T): (t: seq<T>)
    requires i < |s|
    ensures |t| == |s|
    decreases i
  {
    if i > 0 && Less(k, x, s[Parent(i)]) then Up(k, s[i := s[Parent(i)]], Parent(i), x) else s[i := x]
  }

  /** `Compare` of the children of `i`: the right one unless the left one is less. */
  function Pick<T>(k: Keys<T>, s: seq<T>, i: nat): (c: nat)
    requires 2 * i + 1 < |s|
    ensures c < |s| && (c == 2 * i + 1 || c == 2 * i + 2)
  {
    if 2 * i + 2 < |s| && !Less(k, s[2 * i + 1], s[2 * i + 2]) then 2 * i + 2 else 2 * i + 1
  }

  /** `ShiftDown`: `x` sinks from the hole at `i`. */
  function Down<T>(k: Keys<T>, s: seq<T>, i: nat, x: T): (t: seq<T>)
    requires i < |s|
    ensures |t| == |s|
    decreases |s| - i
  {
    if 2 * i + 1 < |s| && Less(k, s[Pick(k, s, i)], x) then Down(k, s[i := s[Pick(k, s, i)]], Pick(k, s, i), x)
    else s[i := x]
  }

  function Push<T>(k: Keys<T>, s: seq<T>, x: T): (t: seq<T>)
    ensures |t| == |s| + 1
  {
    Up(k, s + [x], |s|, x)
  }

  /** The last element takes the root's place and sinks. */
  function Pop<T>(k: Keys<T>, s: seq<T>): (t: seq<T>)
    ensures |t| == if s == [] then 0 else |s| - 1
  {
    if |s| <= 1 then [] else Down(k, [s[|s| - 1]] + s[1..|s| - 1], 0, s[|s| - 1])
  }

  // ---------------------------------------------------------------- the elements stay the same

  lemma {:induction false} UpKeeps<T>(k: Keys<T>, s: seq<T>, i: nat, x: T)
    requires i < |s|
    ensures multiset(Up(k, s, i, x)) == multiset(s[i := x])
    decreases i
  {
    if i > 0 && Less(k, x, s[Parent(i)]) {
      UpKeeps(k, s[i := s[Parent(i)]], Parent(i), x);
    }
  }

  lemma {:induction false} DownKeeps<T>(k: Keys<T>, s: seq<T>, i: nat, x: T)
    requires i < |s|
    ensures multiset(Down(k, s, i, x)) == multiset(s[i := x])
    decreases |s| - i
  {
    if 2 * i + 1 < |s| && Less(k, s[Pick(k, s, i)], x) {
      DownKeeps(k, s[i := s[Pick(k, s, i)]], Pick(k, s, i), x);
    }
  }

  lemma PushAdds<T>(k: Keys<T>, s: seq<T>, x: T)
    ensures multiset(Push(k, s, x)) == multiset(s) + multiset{x}
  {
    UpKeeps(k, s + [x], |s|, x);
    assert (s + [x])[|s| := x] == s + [x];
  }

  lemma PopRemoves<T>(k: Keys<T>, s: seq<T>)
    requires s != []
    ensures multiset(s) == multiset(Pop(k, s)) + multiset{s[0]}
  {
    hide Down;
    if |s| == 1 {
      assert s == [s[0]];
    } else {
      LastToFront(s);
      DownKeeps(k, [s[|s| - 1]] + s[1..|s| - 1], 0, s[|s| - 1]);
    }
  }

  lemma LastToFront<T>(s: seq<T>)
    requires |s| > 1
    ensures var t := [s[|s| - 1]] + s[1..|s| - 1];
      t[0 := s[|s| - 1]] == t && multiset(s) == multiset(t) + multiset{s[0]}
  {
    var x, mid := s[|s| - 1], s[1..|s| - 1];
    assert s == ([s[0]] + mid) + [x];
  }

  // ---------------------------------------------------------------- order

  predicate AllLive<T>(k: Keys<T>, s: seq<T>) { forall i | 0 <= i < |s| :: s[i] in k }

  /** No element is less than its parent, as far as parents from `lo` on are concerned. */
  predicate Ordered<T>(k: Keys<T>, s: seq<T>, lo: nat) {
    forall i | 0 < i < |s| && lo <= Parent(i) :: !Less(k, s[i], s[Parent(i)])
  }

  predicate IsHeap<T>(k: Keys<T>, s: seq<T>) { Ordered(k, s, 0) }

  /** The edges that do not touch the hole at `i` are ordered, and so are those from its
      parent to its children. */
  predicate HoleAt<T>(k: Keys<T>, s: seq<T>, i: nat, lo: nat)
    requires i < |s|
  {
    && (forall j | 0 < j < |s| && j != i && Parent(j) != i && lo <= Parent(j) :: !Less(k, s[j], s[Parent(j)]))
    && (forall j | 0 < j < |s| && Parent(j) == i && 0 < i && lo <= Parent(i) :: !Less(k, s[j], s[Parent(i)]))
  }

  /** The hole moves up over a greater parent. */
  lemma HoleRises<T>(k: Keys<T>, s: seq<T>, i: nat, x: T, lo: nat)
    requires 0 < i < |s| && HoleAt(k, s, i, lo) && Less(k, x, s[Parent(i)]) && lo <= Parent(i)
    ensures var p := Parent(i); var t := s[i := s[p]];
      HoleAt(k, t, p, lo) && forall j | 0 < j < |t| && Parent(j) == p :: !Less(k, t[j], x)
  {
    var p := Parent(i);
    var t := s[i := s[p]];
    forall j | 0 < j < |t| && j != p && Parent(j) != p && lo <= Parent(j) ensures !Less(k, t[j], t[Parent(j)]) {
      if Parent(j) != i { assert !Less(k, s[j], s[Parent(j)]); }
    }
    forall j | 0 < j < |t| && Parent(j) == p
      ensures !Less(k, t[j], x) && (0 < p && lo <= Parent(p) ==> !Less(k, t[j], t[Parent(p)]))
    {
      assert j != i ==> !Less(k, s[j], s[p]);
      assert 0 < p && lo <= Parent(p) ==> !Less(k, s[p], s[Parent(p)]);
    }
  }

  lemma {:induction false} UpOrders<T>(k: Keys<T>, s: seq<T>, i: nat, x: T, lo: nat)
    requires i < |s| && HoleAt(k, s, i, lo)
    requires forall j | 0 < j < |s| && Parent(j) == i && lo <= i :: !Less(k, s[j], x)
    requires lo == 0 || (lo == 1 && 0 < i && !Less(k, x, s[0]))
    ensures Ordered(k, Up(k, s, i, x), lo) && (lo == 1 ==> Up(k, s, i, x)[0] == s[0])
    decreases i
  {
    if i > 0 && Less(k, x, s[Parent(i)]) {
      hide HoleAt, Ordered;
      HoleRises(k, s, i, x, lo);
      UpOrders(k, s[i := s[Parent(i)]], Parent(i), x, lo);
    } else {
      UpStops(k, s, i, x, lo);
    }
  }

  lemma UpStops<T>(k: Keys<T>, s: seq<T>, i: nat, x: T, lo: nat)
    requires i < |s| && HoleAt(k, s, i, lo)
    requires forall j | 0 < j < |s| && Parent(j) == i && lo <= i :: !Less(k, s[j], x)
    requires 0 < i ==> !Less(k, x, s[Parent(i)])
    ensures Ordered(k, s[i := x], lo)
  {
    var t := s[i := x];
    forall j | 0 < j < |t| && lo <= Parent(j) ensures !Less(k, t[j], t[Parent(j)]) {
      if Parent(j) != i && j != i { assert !Less(k, s[j], s[Parent(j)]); }
    }
  }

  /** Sinking from `i` ends well: where `x` stops, the left child is not less than it. The
      right one is not, when it was picked; but it is also picked when it has expired. */
  predicate SinksWell<T>(k: Keys<T>, s: seq<T>, i: nat, x: T)
    requires i < |s|
    decreases |s| - i
  {
    2 * i + 1 < |s| ==>
      if Less(k, s[Pick(k, s, i)], x) then SinksWell(k, s[i := s[Pick(k, s, i)]], Pick(k, s, i), x)
      else !Less(k, s[2 * i + 1], x)
  }

  /** A pop sinks well. */
  predicate PopsWell<T>(k: Keys<T>, s: seq<T>) {
    |s| > 1 ==> SinksWell(k, [s[|s| - 1]] + s[1..|s| - 1], 0, s[|s| - 1])
  }

  lemma HoleSinks<T>(k: Keys<T>, s: seq<T>, i: nat)
    requires 2 * i + 1 < |s| && HoleAt(k, s, i, 0)
    ensures var c := Pick(k, s, i); HoleAt(k, s[i := s[c]], c, 0)
  {
    var c := Pick(k, s, i);
    var t := s[i := s[c]];
    forall j | 0 < j < |t| && j != c && Parent(j) != c ensures !Less(k, t[j], t[Parent(j)]) {
      if Parent(j) == i {
        assert j == 2 * i + 1 || j == 2 * i + 2;
      } else if j != i {
        assert !Less(k, s[j], s[Parent(j)]);
      }
    }
  }

  /** What sinks from an ordered hole leaves a heap if and only if it sinks well. */
  lemma {:induction false} DownOrdersIff<T>(k: Keys<T>, s: seq<T>, i: nat, x: T)
    requires i < |s| && HoleAt(k, s, i, 0)
    requires 0 < i ==> !Less(k, x, s[Parent(i)])
    ensures IsHeap(k, Down(k, s, i, x)) <==> SinksWell(k, s, i, x)
    decreases |s| - i
  {
    if 2 * i + 1 < |s| && Less(k, s[Pick(k, s, i)], x) {
      hide HoleAt, IsHeap, Ordered;
      HoleSinks(k, s, i);
      DownOrdersIff(k, s[i := s[Pick(k, s, i)]], Pick(k, s, i), x);
    } else {
      DownStops(k, s, i, x);
    }
  }

  lemma DownStops<T>(k: Keys<T>, s: seq<T>, i: nat, x: T)
    requires i < |s| && HoleAt(k, s, i, 0)
    requires 0 < i ==> !Less(k, x, s[Parent(i)])
    requires 2 * i + 1 < |s| ==> !Less(k, s[Pick(k, s, i)], x)
    ensures IsHeap(k, s[i := x]) <==> (2 * i + 1 < |s| ==> !Less(k, s[2 * i + 1], x))
  {
    hide HoleAt;
    if 2 * i + 1 < |s| && Less(k, s[2 * i + 1], x) {
      assert Parent(2 * i + 1) == i && Less(k, s[i := x][2 * i + 1], s[i := x][i]);
    } else {
      hide Less, Pick;
      RestsWell(k, s, i, x);
    }
  }

  lemma RestsWell<T>(k: Keys<T>, s: seq<T>, i: nat, x: T)
    requires i < |s| && HoleAt(k, s, i, 0)
    requires 0 < i ==> !Less(k, x, s[Parent(i)])
    requires 2 * i + 1 < |s| ==> !Less(k, s[Pick(k, s, i)], x) && !Less(k, s[2 * i + 1], x)
    ensures IsHeap(k, s[i := x])
  {
    hide HoleAt, Less, Pick;
    var t := s[i := x];
    forall j | 0 < j < |t| ensures !Less(k, t[j], t[Parent(j)]) {
      EdgeRests(k, s, i, x, j);
    }
  }

  lemma EdgeRests<T>(k: Keys<T>, s: seq<T>, i: nat, x: T, j: nat)
    requires i < |s| && HoleAt(k, s, i, 0) && 0 < j < |s|
    requires 0 < i ==> !Less(k, x, s[Parent(i)])
    requires 2 * i + 1 < |s| ==> !Less(k, s[Pick(k, s, i)], x) && !Less(k, s[2 * i + 1], x)
    ensures !Less(k, s[i := x][j], s[i := x][Parent(j)])
  {
    if Parent(j) == i {
      assert j == 2 * i + 1 || j == 2 * i + 2;
    } else if j != i {
      assert !Less(k, s[j], s[Parent(j)]);
    }
  }

  /** Pushing keeps the order, whatever has expired, also below a root that is too great, if
      what is pushed is no less than the root. */
  lemma PushOrders<T>(k: Keys<T>, s: seq<T>, x: T, lo: nat)
    requires Ordered(k, s, lo)
    requires lo == 0 || (lo == 1 && s != [] && !Less(k, x, s[0]))
    ensures Ordered(k, Push(k, s, x), lo) && (lo == 1 ==> Push(k, s, x)[0] == s[0])
  {
    UpOrders(k, s + [x], |s|, x, lo);
  }

  /** Popping restores the order, whatever the root was and whatever has expired, if and only if
      the last element sinks well. */
  lemma PopOrdersIff<T>(k: Keys<T>, s: seq<T>)
    requires Ordered(k, s, 1)
    ensures IsHeap(k, Pop(k, s)) <==> PopsWell(k, s)
  {
    if |s| > 1 {
      var x := s[|s| - 1];
      var t := [x] + s[1..|s| - 1];
      assert forall j | 0 < j < |t| :: t[j] == s[j];
      DownOrdersIff(k, t, 0, x);
    }
  }

  /** Nothing sinks badly among elements that are alive. */
  lemma {:induction false} LiveSinksWell<T>(k: Keys<T>, s: seq<T>, i: nat, x: T)
    requires i < |s| && AllLive(k, s) && x in k
    ensures SinksWell(k, s, i, x)
    decreases |s| - i
  {
    if 2 * i + 1 < |s| && Less(k, s[Pick(k, s, i)], x) {
      LiveSinksWell(k, s[i := s[Pick(k, s, i)]], Pick(k, s, i), x);
    }
  }

  /** So with no expired elements a pop always restores the order. */
  lemma PopOrders<T>(k: Keys<T>, s: seq<T>)
    requires AllLive(k, s) && Ordered(k, s, 1)
    ensures IsHeap(k, Pop(k, s))
  {
    PopOrdersIff(k, s);
    if |s| > 1 {
      LiveSinksWell(k, [s[|s| - 1]] + s[1..|s| - 1], 0, s[|s| - 1]);
    }
  }

  /** The root is least. */
  lemma {:induction false} RootLeast<T>(k: Keys<T>, s: seq<T>, i: nat)
    requires i < |s| && AllLive(k, s) && IsHeap(k, s)
    ensures k[s[0]] <= k[s[i]]
  {
    if i > 0 {
      RootLeast(k, s, Parent(i));
    }
  }

  /** Rescheduling: the front's key is changed in place, which may break the order; the front is
      pushed once more; and a pop leaves the same elements, and a heap if and only if it sinks
      well. */
  lemma ReschedulesIff<T>(k: Keys<T>, s: seq<T>, key: nat)
    requires s != [] && IsHeap(k, s) && multiset(s)[s[0]] == 1
    ensures var raised := k[s[0] := key]; var p := Push(raised, s, s[0]);
      && multiset(Pop(raised, p)) == multiset(s)
      && (IsHeap(raised, Pop(raised, p)) <==> PopsWell(raised, p))
  {
    var raised := k[s[0] := key];
    hide Push, Pop, PopsWell;
    RaisedOrdered(k, s, key);
    PushOrders(raised, s, s[0], 1);
    PushAdds(raised, s, s[0]);
    var p := Push(raised, s, s[0]);
    PopOrdersIff(raised, p);
    PopRemoves(raised, p);
    Cancel(multiset(Pop(raised, p)), multiset(s), s[0]);
  }

  /** Below the root nothing changes. */
  lemma RaisedOrdered<T>(k: Keys<T>, s: seq<T>, key: nat)
    requires s != [] && IsHeap(k, s) && multiset(s)[s[0]] == 1
    ensures Ordered(k[s[0] := key], s, 1)
  {
    OnlyFront(s);
  }

  /** With no expired elements it always leaves a heap. */
  lemma Reschedules<T>(k: Keys<T>, s: seq<T>, key: nat)
    requires s != [] && AllLive(k, s) && IsHeap(k, s) && multiset(s)[s[0]] == 1
    ensures var raised := k[s[0] := key]; var t := Pop(raised, Push(raised, s, s[0]));
      IsHeap(raised, t) && multiset(t) == multiset(s)
  {
    var raised := k[s[0] := key];
    hide Push, Pop, PopsWell, IsHeap, Ordered;
    ReschedulesIff(k, s, key);
    RaisedOrdered(k, s, key);
    PushOrders(raised, s, s[0], 1);
    PushAdds(raised, s, s[0]);
    var p := Push(raised, s, s[0]);
    LiveMembers(raised, s, p);
    PopOrders(raised, p);
  }

  lemma Cancel<T>(a: multiset<T>, b: multiset<T>, x: T)
    requires a + multiset{x} == b + multiset{x}
    ensures a == b
  {
    assert a == (a + multiset{x}) - multiset{x};
    assert b == (b + multiset{x}) - multiset{x};
  }

  lemma OnlyFront<T>(s: seq<T>)
    requires s != [] && multiset(s)[s[0]] == 1
    ensures forall i | 0 < i < |s| :: s[i] != s[0]
  {
    assert s == [s[0]] + s[1..];
    forall i | 0 < i < |s| ensures s[i] != s[0] {
      assert s[i] == s[1..][i - 1];
      assert s[i] in multiset(s[1..]);
    }
  }

  lemma LiveMembers<T>(k: Keys<T>, s: seq<T>, t: seq<T>)
    requires AllLive(k, s) && forall x | x in multiset(t) :: x in multiset(s)
    ensures AllLive(k, t)
  {
    forall i | 0 <= i < |t| ensures t[i] in k {
      assert t[i] in multiset(t);
    }
  }
}
