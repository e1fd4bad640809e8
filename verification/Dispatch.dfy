/** The event loop of `chaos::EventCentre` for I/O events: registration, cancellation, the
    active and waiting lists, each event's queue of occurred events, the poller's owning
    map and the kernel's interest map. */
module Dispatch {

  datatype Flag = Read | Write | Except | Timeout | Signal | Cancel | Error
  type Mask = set<Flag>

  const IO: Mask := {Read, Write, Except}
  const RW: Mask := {Read, Write}

  /** An event object. Its key is its descriptor. */
  class Event {
    const fd: int
    var ev: Mask
    var curEv: seq<Mask>
    var attached: bool  // whether m_pCentre is set

    constructor (fd: int, ev: Mask)
      ensures this.fd == fd && this.ev == ev + {Cancel} && curEv == [] && !attached
    {
      this.fd, this.ev, curEv, attached := fd, ev + {Cancel}, [], false;
    }
  }

  // ---------------------------------------------------------------- the loop as a value

  datatype Info = Info(mask: Mask, queue: seq<Mask>, attached: bool)

  /** `info` holds the fields of every event object, `owner` the poller's map, `kernel` the
      kernel's interest per descriptor, `active` the entries not yet dispatched, `running`
      the entry being handled, `num` the counter `m_eventsNum`. */
  datatype Loop = Loop(
    info: map<Event, Info>, owner: map<int, Event>, kernel: map<int, Mask>,
    active: seq<Event>, waiting: seq<Event>, running: seq<Event>, num: int)

  function Listed(st: Loop): multiset<Event> {
    multiset(st.active) + multiset(st.waiting) + multiset(st.running)
  }

  predicate Owned(st: Loop, e: Event) { e.fd in st.owner && st.owner[e.fd] == e }

  /** CANCEL is the last thing that occurred, and the event has left the centre. */
  predicate Cancelled(i: Info) {
    !i.attached && i.queue != [] && Cancel in i.queue[|i.queue| - 1]
  }

  // ------------------------------------------------- kernel interest: Epoll

  /** `RegistFd`: ADD, or MOD when the descriptor is already there. */
  function RegistFd(st: Loop, fd: int, m: Mask): (k: map<int, Mask>)
    requires fd in st.owner && st.owner[fd] in st.info
  {
    st.kernel[fd := (st.info[st.owner[fd]].mask + m) * RW]
  }

  /** `CancelFd`: MOD while some interest is left, else DEL. MOD of an absent descriptor fails. */
  function CancelFd(st: Loop, fd: int, m: Mask): (k: map<int, Mask>)
    requires fd in st.owner ==> st.owner[fd] in st.info
  {
    if fd in st.owner then
      var left := (st.info[st.owner[fd]].mask - m) * RW;
      if left != {} then
        if fd in st.kernel then st.kernel[fd := left] else st.kernel
      else st.kernel - {fd}
    else st.kernel - {fd}
  }

  // ------------------------------------------------- operations

  /** What a program does to the centre, from a handler or from outside. `ctlOk` says
      whether `epoll_ctl` accepts the descriptor. */
  datatype Action =
    | Register(e: Event, ctlOk: bool)
    | CancelEvent(e: Event)
    | PushEvent(e: Event, m: Mask)
    | Enable(e: Event, m: Mask)
    | Disable(e: Event, m: Mask)

  /** `RegisterEvent` returns 0 just then. */
  predicate Registers(st: Loop, e: Event, ctlOk: bool)
    requires e in st.info
  {
    !st.info[e].attached && st.info[e].mask * IO != {} && e.fd !in st.owner && ctlOk
  }

  function SetInfo(st: Loop, e: Event, i: Info): Loop { st.(info := st.info[e := i]) }

  function DoRegister(st: Loop, e: Event, ctlOk: bool): Loop
    requires e in st.info
  {
    if !Registers(st, e, ctlOk) then st else
    var owned := st.(owner := st.owner[e.fd := e]);
    SetInfo(owned, e, st.info[e].(attached := true))
      .(kernel := RegistFd(owned, e.fd, st.info[e].mask), num := st.num + 1)
  }

  function DoPush(st: Loop, e: Event, m: Mask): Loop
    requires e in st.info
  {
    var i := st.info[e];
    if !i.attached || i.mask * m == {} then st
    else SetInfo(st, e, i.(queue := i.queue + [m])).(waiting := st.waiting + [e])
  }

  function DoCancel(st: Loop, e: Event): Loop
    requires e in st.info
  {
    if !st.info[e].attached then st else
    var pushed := DoPush(st, e, {Cancel});
    SetInfo(pushed, e, pushed.info[e].(attached := false))
  }

  function DoEnable(st: Loop, e: Event, m: Mask): Loop
    requires e in st.info && forall fd | fd in st.owner :: st.owner[fd] in st.info
  {
    if !st.info[e].attached then st else
    var set' := SetInfo(st, e, st.info[e].(mask := st.info[e].mask + m * IO));
    if e.fd in st.owner then set'.(kernel := RegistFd(set', e.fd, m * IO)) else set'
  }

  function DoDisable(st: Loop, e: Event, m: Mask): Loop
    requires e in st.info && forall fd | fd in st.owner :: st.owner[fd] in st.info
  {
    if !st.info[e].attached then st else
    var set' := SetInfo(st, e, st.info[e].(mask := st.info[e].mask - m * IO));
    if e.fd in st.owner then set'.(kernel := CancelFd(set', e.fd, m * IO)) else set'
  }

  predicate OwnersKnown(st: Loop) { forall fd | fd in st.owner :: st.owner[fd] in st.info }

  function Act(st: Loop, a: Action): (t: Loop)
    requires a.e in st.info && OwnersKnown(st)
    ensures OwnersKnown(t) && t.info.Keys == st.info.Keys && t.running == st.running && t.active == st.active
  {
    match a
    case Register(e, ctlOk) => DoRegister(st, e, ctlOk)
    case CancelEvent(e) => DoCancel(st, e)
    case PushEvent(e, m) => DoPush(st, e, m * IO)
    case Enable(e, m) => DoEnable(st, e, m)
    case Disable(e, m) => DoDisable(st, e, m)
  }

  /** `PushActiveEvent`: the poller reports `m` on a descriptor. */
  function Poll(st: Loop, fd: int, m: Mask): (t: Loop)
    requires OwnersKnown(st)
    ensures OwnersKnown(t) && t.info.Keys == st.info.Keys
  {
    if fd !in st.owner then st else
    var e := st.owner[fd];
    var i := st.info[e];
    if !i.attached || i.mask * (m * IO) == {} then st
    else SetInfo(st, e, i.(queue := i.queue + [m * IO])).(active := st.active + [e])
  }

  /** `MakeWaittingToActive`. */
  function Merge(st: Loop): Loop { st.(active := st.waiting + st.active, waiting := []) }

  /** `DeleteEvent`: only an event that still cares for I/O leaves the poller. */
  function Delete(st: Loop, e: Event): (t: Loop)
    requires e in st.info && OwnersKnown(st)
    ensures OwnersKnown(t) && t.info == st.info
  {
    if st.info[e].mask * IO == {} then st
    else st.(kernel := CancelFd(st, e.fd, st.info[e].mask), owner := st.owner - {e.fd}, num := st.num - 1)
  }

  /** Whether dispatching the first active entry calls `Handle` on `e`. */
  predicate Handles(st: Loop, e: Event)
    requires e in st.info
  {
    && st.active != [] && st.active[0] == e
    && !(st.info[e].queue != [] && Cancel in st.info[e].queue[0])
    && st.info[e].attached
  }

  // ---------------------------------------------------------------- the invariant

  /** What holds of an event with fields `i`, listed `n` times, owned by the poller or not:
      it is listed no more often than things have occurred to it, CANCEL is last in its
      queue, and only an owned event is listed. */
  predicate Ok(i: Info, n: nat, owned: bool) {
    && Cancel in i.mask
    && (forall k | 0 <= k < |i.queue| :: Cancel in i.queue[k] ==> k == |i.queue| - 1 && !i.attached)
    && n <= |i.queue|
    && (i.attached ==> owned && n == |i.queue|)
    && (!owned ==> n == 0 && (i.queue == [] || (|i.queue| == 1 && Cancelled(i))))
    && (owned && !i.attached ==> Cancelled(i))
    && (owned && i.queue != [] && Cancel in i.queue[0] && i.mask * IO != {} ==> n == 1)
  }

  predicate EventOk(st: Loop, e: Event)
    requires e in st.info
  {
    Ok(st.info[e], Listed(st)[e], Owned(st, e))
  }

  predicate EventsOk(st: Loop) { forall e | e in st.info :: EventOk(st, e) }

  /** The poller's map holds known events under their own descriptors, every list entry is a
      known event, at most one event is being handled, and the counter counts the map. */
  predicate Filed(st: Loop) {
    && OwnersKnown(st)
    && (forall fd | fd in st.owner :: st.owner[fd].fd == fd)
    && (forall e | e in Listed(st) :: e in st.info)
    && |st.running| <= 1
    && st.num == |st.owner|
  }

  /** Each descriptor's kernel interest is what its event cares for; absent means none. */
  predicate InterestOk(st: Loop)
    requires OwnersKnown(st)
  {
    && (forall fd | fd in st.kernel :: fd in st.owner)
    && (forall fd | fd in st.owner :: Interest(st.kernel, fd) == st.info[st.owner[fd]].mask * RW)
  }

  function Interest(kernel: map<int, Mask>, fd: int): Mask {
    if fd in kernel then kernel[fd] else {}
  }

  /** While an event is being handled, every occurrence in its queue is listed. */
  predicate RunningOk(st: Loop) {
    forall e | e in st.running && e in st.info ::
      st.info[e].queue != [] && Cancel !in st.info[e].queue[0] && Listed(st)[e] == |st.info[e].queue|
  }

  predicate Inv(st: Loop) { Filed(st) && EventsOk(st) && RunningOk(st) && InterestOk(st) }

  /** An event that was cancelled and deleted is not registered again. */
  predicate Fresh(st: Loop, a: Action)
    requires a.e in st.info
  {
    a.Register? && Registers(st, a.e, a.ctlOk) ==> st.info[a.e].queue == []
  }

  /** A queue and its list entries grew together, or not at all. */
  predicate Grew(q: seq<Mask>, r: seq<Mask>, n: nat, m: nat) {
    (r == q && m == n) || (|r| == |q| + 1 && r[..|q|] == q && m == n + 1)
  }

  /** A step that touches only `e` need only be checked on `e`. */
  lemma OthersOk(st: Loop, t: Loop, e: Event)
    requires EventsOk(st) && e in st.info && t.info.Keys == st.info.Keys && EventOk(t, e)
    requires forall x | x in st.info && x != e ::
      t.info[x] == st.info[x] && Listed(t)[x] == Listed(st)[x] && Owned(t, x) == Owned(st, x)
    requires RunningOk(st) && t.running == st.running
    requires Grew(st.info[e].queue, t.info[e].queue, Listed(st)[e], Listed(t)[e])
    ensures EventsOk(t) && RunningOk(t)
  {
    hide Ok, Listed, Owned;
    forall x | x in t.info ensures EventOk(t, x) {
      if x != e { assert EventOk(st, x); }
    }
  }

  lemma InterestSame(st: Loop, t: Loop)
    requires OwnersKnown(st) && InterestOk(st) && t.owner == st.owner && t.kernel == st.kernel
    requires t.info.Keys == st.info.Keys && forall x | x in st.info :: t.info[x].mask == st.info[x].mask
    ensures OwnersKnown(t) && InterestOk(t)
  {
  }

  lemma ListedMore(st: Loop, t: Loop, e: Event)
    requires t.running == st.running
    requires (t.active == st.active && t.waiting == st.waiting + [e]) || (t.active == st.active + [e] && t.waiting == st.waiting)
    ensures Listed(t) == Listed(st) + multiset{e}
  {
  }

  lemma OkPush(i: Info, n: nat, m: Mask)
    requires Ok(i, n, true) && i.attached && Cancel !in m
    ensures Ok(i.(queue := i.queue + [m]), n + 1, true)
  {
  }

  lemma OkCancel(i: Info, n: nat)
    requires Ok(i, n, true) && i.attached
    ensures Ok(i.(queue := i.queue + [{Cancel}], attached := false), n + 1, true)
  {
  }

  lemma OkRegister(i: Info, n: nat)
    requires Ok(i, n, false) && i.queue == []
    ensures Ok(i.(attached := true), n, true)
  {
  }

  /** A fresh event that registers is not yet owned, and nothing has occurred to it. */
  lemma FreshBlank(st: Loop, e: Event, ctlOk: bool)
    requires Inv(st) && e in st.info && Fresh(st, Register(e, ctlOk)) && Registers(st, e, ctlOk)
    ensures !Owned(st, e) && st.info[e].queue == []
  {
  }

  lemma RegisterKeeps(st: Loop, e: Event, ctlOk: bool)
    requires Inv(st) && e in st.info && Fresh(st, Register(e, ctlOk))
    ensures Inv(DoRegister(st, e, ctlOk))
  {
    hide Listed, Ok, InterestOk;
    var t := DoRegister(st, e, ctlOk);
    if Registers(st, e, ctlOk) {
      FreshBlank(st, e, ctlOk);
      assert EventOk(st, e);
      SameLists(st, t);
      OkRegister(st.info[e], Listed(st)[e]);
      OthersOk(st, t, e);
      RegisterInterest(st, e, ctlOk);
    }
  }

  lemma SameLists(st: Loop, t: Loop)
    requires t.active == st.active && t.waiting == st.waiting && t.running == st.running
    ensures Listed(t) == Listed(st)
  {
  }

  lemma RegisterInterest(st: Loop, e: Event, ctlOk: bool)
    requires OwnersKnown(st) && InterestOk(st) && e in st.info && Registers(st, e, ctlOk)
    ensures OwnersKnown(DoRegister(st, e, ctlOk)) && InterestOk(DoRegister(st, e, ctlOk))
    ensures |DoRegister(st, e, ctlOk).owner| == |st.owner| + 1
  {
    var t := DoRegister(st, e, ctlOk);
    assert (st.info[e].mask + st.info[e].mask) * RW == st.info[e].mask * RW;
  }

  lemma PushKeeps(st: Loop, e: Event, m: Mask)
    requires Inv(st) && e in st.info && Cancel !in m
    ensures Inv(DoPush(st, e, m))
  {
    hide Listed, Ok;
    var t := DoPush(st, e, m);
    assert EventOk(st, e);
    if st.info[e].attached && st.info[e].mask * m != {} {
      AttachedOwned(st, e);
      ListedMore(st, t, e);
      OkPush(st.info[e], Listed(st)[e], m);
      OthersOk(st, t, e);
      InterestSame(st, t);
    }
  }

  lemma AttachedOwned(st: Loop, e: Event)
    requires e in st.info && EventOk(st, e) && st.info[e].attached
    ensures Owned(st, e) && Cancel in st.info[e].mask && Listed(st)[e] == |st.info[e].queue|
  {
  }

  lemma CancelKeeps(st: Loop, e: Event)
    requires Inv(st) && e in st.info
    ensures Inv(DoCancel(st, e))
  {
    hide Listed, Ok;
    var t := DoCancel(st, e);
    assert EventOk(st, e);
    if st.info[e].attached {
      AttachedOwned(st, e);
      assert st.info[e].mask * {Cancel} != {} by { assert Cancel in st.info[e].mask * {Cancel}; }
      ListedMore(st, t, e);
      OkCancel(st.info[e], Listed(st)[e]);
      OthersOk(st, t, e);
      InterestSame(st, t);
    }
  }

  lemma OkMask(i: Info, n: nat, m: Mask)
    requires Ok(i, n, true) && i.attached && Cancel in m
    ensures Ok(i.(mask := m), n, true)
  {
  }

  lemma EnableKeeps(st: Loop, e: Event, m: Mask)
    requires Inv(st) && e in st.info
    ensures Inv(DoEnable(st, e, m))
  {
    hide Listed, Ok;
    var t := DoEnable(st, e, m);
    assert EventOk(st, e);
    if st.info[e].attached {
      AttachedOwned(st, e);
      SameLists(st, t);
      OkMask(st.info[e], Listed(st)[e], t.info[e].mask);
      OthersOk(st, t, e);
      UpdateInterest(st, t, e);
    }
  }

  /** When the event's own descriptor is brought up to date, the rest stays agreed. */
  lemma UpdateInterest(st: Loop, t: Loop, e: Event)
    requires Filed(st) && InterestOk(st) && e in st.info && Owned(st, e) && t.owner == st.owner
    requires t.info.Keys == st.info.Keys && forall x | x in st.info && x != e :: t.info[x] == st.info[x]
    requires forall fd | fd != e.fd :: (fd in t.kernel <==> fd in st.kernel) && Interest(t.kernel, fd) == Interest(st.kernel, fd)
    requires Interest(t.kernel, e.fd) == t.info[e].mask * RW
    ensures OwnersKnown(t) && InterestOk(t)
  {
  }

  lemma DisableKeeps(st: Loop, e: Event, m: Mask)
    requires Inv(st) && e in st.info
    ensures Inv(DoDisable(st, e, m))
  {
    hide Listed, Ok;
    var t := DoDisable(st, e, m);
    assert EventOk(st, e);
    if st.info[e].attached {
      AttachedOwned(st, e);
      SameLists(st, t);
      OkMask(st.info[e], Listed(st)[e], t.info[e].mask);
      OthersOk(st, t, e);
      DisableAgrees(st, e, m);
      UpdateInterest(st, t, e);
    }
  }

  lemma DisableAgrees(st: Loop, e: Event, m: Mask)
    requires Filed(st) && InterestOk(st) && e in st.info && Owned(st, e) && st.info[e].attached
    ensures var t := DoDisable(st, e, m);
      && Interest(t.kernel, e.fd) == t.info[e].mask * RW
      && forall fd | fd != e.fd :: (fd in t.kernel <==> fd in st.kernel) && Interest(t.kernel, fd) == Interest(st.kernel, fd)
  {
    var left := (st.info[e].mask - m * IO) * RW;
    assert (st.info[e].mask - m * IO - m * IO) * RW == left;
    if e.fd !in st.kernel {
      assert st.info[e].mask * RW == {};
      assert left == {} by { assert left <= st.info[e].mask * RW; }
    }
  }

  /** An update that the kernel refuses changes the mask alone. */
  lemma RefusedUpdateIff(st: Loop, e: Event, mask: Mask)
    requires Filed(st) && InterestOk(st) && e in st.info && Owned(st, e)
    ensures var t := SetInfo(st, e, st.info[e].(mask := mask));
      OwnersKnown(t) && (InterestOk(t) <==> mask * RW == st.info[e].mask * RW)
  {
    hide Listed;
    var t := SetInfo(st, e, st.info[e].(mask := mask));
    if mask * RW == st.info[e].mask * RW {
      UpdateInterest(st, t, e);
    } else {
      assert Interest(t.kernel, e.fd) == st.info[e].mask * RW;
    }
  }

  lemma PollKeeps(st: Loop, fd: int, m: Mask)
    requires Inv(st)
    ensures Inv(Poll(st, fd, m))
  {
    hide Listed, Ok;
    var t := Poll(st, fd, m);
    if fd in st.owner {
      var e := st.owner[fd];
      assert EventOk(st, e);
      if st.info[e].attached && st.info[e].mask * (m * IO) != {} {
        ListedMore(st, t, e);
        OkPush(st.info[e], Listed(st)[e], m * IO);
        OthersOk(st, t, e);
        InterestSame(st, t);
      }
    }
  }

  lemma MergeKeeps(st: Loop)
    requires Inv(st)
    ensures Inv(Merge(st)) && Listed(Merge(st)) == Listed(st)
  {
    assert Listed(Merge(st)) == Listed(st);
    forall x | x in st.info ensures EventOk(Merge(st), x) {
      assert EventOk(st, x);
    }
  }

  lemma ActKeeps(st: Loop, a: Action)
    requires Inv(st) && a.e in st.info && Fresh(st, a)
    ensures Inv(Act(st, a))
  {
    hide Inv, Fresh;
    match a {
      case Register(e, ctlOk) => RegisterKeeps(st, e, ctlOk);
      case CancelEvent(e) => CancelKeeps(st, e);
      case PushEvent(e, m) => PushKeeps(st, e, m * IO);
      case Enable(e, m) => EnableKeeps(st, e, m);
      case Disable(e, m) => DisableKeeps(st, e, m);
    }
  }

  // ---------------------------------------------------------------- dispatching

  predicate KnownAll(st: Loop, script: seq<Action>) {
    forall k | 0 <= k < |script| :: script[k].e in st.info
  }

  /** What a handler does, action by action. */
  function Script(st: Loop, script: seq<Action>): (t: Loop)
    requires OwnersKnown(st) && KnownAll(st, script)
    ensures OwnersKnown(t) && t.info.Keys == st.info.Keys && t.running == st.running && t.active == st.active
    decreases |script|
  {
    if script == [] then st else Script(Act(st, script[0]), script[1..])
  }

  /** `PopCurEv` after a handler. */
  function Finish(st: Loop, e: Event): (t: Loop)
    requires e in st.info
    ensures t.info.Keys == st.info.Keys
  {
    var q := st.info[e].queue;
    SetInfo(st, e, st.info[e].(queue := if q == [] then [] else q[1..])).(running := [])
  }

  /** One pass of the loop in `ProcessActiveEvent`; `script` is what the handler does, if it
      is called. */
  function DispatchOne(st: Loop, script: seq<Action>): (t: Loop)
    requires OwnersKnown(st) && KnownAll(st, script) && st.active != [] && st.active[0] in st.info
    ensures OwnersKnown(t) && t.info.Keys == st.info.Keys && t.active == st.active[1..]
  {
    var e := st.active[0];
    var rest := st.(active := st.active[1..]);
    if st.info[e].queue != [] && Cancel in st.info[e].queue[0] then Delete(rest, e)
    else if !st.info[e].attached then rest
    else Finish(Script(rest.(running := [e]), script), e)
  }

  predicate FreshAll(st: Loop, script: seq<Action>)
    requires OwnersKnown(st) && KnownAll(st, script)
    decreases |script|
  {
    script == [] || (Fresh(st, script[0]) && FreshAll(Act(st, script[0]), script[1..]))
  }

  /** What the handler of the first active entry starts from. */
  function Handling(st: Loop): (t: Loop)
    requires OwnersKnown(st) && st.active != []
    ensures OwnersKnown(t) && t.info == st.info
  {
    st.(active := st.active[1..], running := [st.active[0]])
  }

  lemma {:induction false} ScriptKeeps(st: Loop, script: seq<Action>)
    requires Inv(st) && KnownAll(st, script) && FreshAll(st, script)
    ensures Inv(Script(st, script))
    decreases |script|
  {
    if script != [] {
      hide EventsOk, InterestOk, RunningOk, Act;
      ActKeeps(st, script[0]);
      ScriptKeeps(Act(st, script[0]), script[1..]);
    }
  }

  lemma ListedLess(st: Loop)
    requires st.active != []
    ensures Listed(st) == Listed(st.(active := st.active[1..])) + multiset{st.active[0]}
    ensures st.running == [] ==> Listed(st.(active := st.active[1..], running := [st.active[0]])) == Listed(st)
  {
    assert st.active == [st.active[0]] + st.active[1..];
  }

  lemma OkSkip(i: Info, n: nat)
    requires Ok(i, n, true) && 0 < n && !i.attached && i.queue != [] && Cancel !in i.queue[0]
    ensures Ok(i, n - 1, true)
  {
  }

  lemma OkDelete(i: Info, n: nat)
    requires Ok(i, n, true) && 0 < n && i.queue != [] && Cancel in i.queue[0]
    ensures n == 1 && |i.queue| == 1 && Ok(i, 0, false) && (i.mask * IO == {} ==> Ok(i, 0, true))
  {
  }

  lemma OkFinish(i: Info, n: nat)
    requires Ok(i, n, true) && i.queue != [] && Cancel !in i.queue[0] && n == |i.queue|
    ensures Ok(i.(queue := i.queue[1..]), n - 1, true)
  {
  }

  /** A listed event is owned by the poller: no entry outlives its owner. */
  lemma ListedIsOwned(st: Loop, e: Event)
    requires Inv(st) && e in Listed(st)
    ensures e in st.info && Owned(st, e) && st.info[e].queue != []
  {
    hide Listed;
    assert EventOk(st, e);
  }

  lemma SkipKeeps(st: Loop)
    requires Inv(st) && st.running == [] && st.active != []
    requires var e := st.active[0]; e in st.info && !st.info[e].attached && st.info[e].queue != [] && Cancel !in st.info[e].queue[0]
    ensures Inv(st.(active := st.active[1..]))
  {
    hide Listed, Ok;
    var e := st.active[0];
    var t := st.(active := st.active[1..]);
    ListedLess(st);
    ListedIsOwned(st, e);
    assert EventOk(st, e);
    OkSkip(st.info[e], Listed(st)[e]);
    forall x | x in t.info ensures EventOk(t, x) {
      if x != e { assert EventOk(st, x); }
    }
    InterestSame(st, t);
  }

  lemma DeleteEvents(st: Loop)
    requires Inv(st) && st.running == [] && st.active != []
    requires var e := st.active[0]; e in st.info && st.info[e].queue != [] && Cancel in st.info[e].queue[0]
    ensures var e := st.active[0]; var t := Delete(st.(active := st.active[1..]), e);
      && EventsOk(t) && Owned(st, e) && Listed(st) == Listed(t) + multiset{e} && Listed(t)[e] == 0
  {
    hide Listed, Ok, InterestOk;
    var e := st.active[0];
    var rest := st.(active := st.active[1..]);
    var t := Delete(rest, e);
    ListedLess(st);
    ListedIsOwned(st, e);
    assert EventOk(st, e);
    OkDelete(st.info[e], Listed(st)[e]);
    SameLists(rest, t);
    forall x | x in t.info ensures EventOk(t, x) {
      if x != e { assert EventOk(st, x); }
    }
  }

  lemma DeleteFiled(st: Loop)
    requires Filed(st) && InterestOk(st) && st.running == [] && st.active != []
    requires var e := st.active[0]; e in st.info && Owned(st, e)
    ensures var t := Delete(st.(active := st.active[1..]), st.active[0]); Filed(t) && InterestOk(t)
  {
    hide Listed;
    var e := st.active[0];
    var rest := st.(active := st.active[1..]);
    ListedLess(st);
    SameLists(rest, Delete(rest, e));
    InterestSame(st, rest);
    if st.info[e].mask * IO != {} {
      DeleteInterest(rest, e);
    }
  }

  lemma DeleteKeeps(st: Loop)
    requires Inv(st) && st.running == [] && st.active != []
    requires var e := st.active[0]; e in st.info && st.info[e].queue != [] && Cancel in st.info[e].queue[0]
    ensures var e := st.active[0]; var t := Delete(st.(active := st.active[1..]), e);
      && Inv(t) && Listed(t)[e] == 0 && (st.info[e].mask * IO != {} ==> !Owned(t, e))
  {
    hide Listed, EventsOk, InterestOk;
    DeleteEvents(st);
    DeleteFiled(st);
  }

  lemma DeleteInterest(st: Loop, e: Event)
    requires OwnersKnown(st) && InterestOk(st) && e in st.info && Owned(st, e) && st.info[e].mask * IO != {}
    ensures OwnersKnown(Delete(st, e)) && InterestOk(Delete(st, e)) && |Delete(st, e).owner| == |st.owner| - 1
  {
    assert (st.info[e].mask - st.info[e].mask) * RW == {};
    assert (st.owner - {e.fd}).Keys == st.owner.Keys - {e.fd};
    assert |st.owner - {e.fd}| == |(st.owner - {e.fd}).Keys|;
  }

  lemma HandlingKeeps(st: Loop)
    requires Inv(st) && st.running == [] && st.active != []
    requires var e := st.active[0]; e in st.info && st.info[e].attached
    ensures Inv(Handling(st))
  {
    hide Listed, Ok;
    var e := st.active[0];
    var t := Handling(st);
    ListedLess(st);
    ListedIsOwned(st, e);
    forall x | x in t.info ensures EventOk(t, x) {
      assert EventOk(st, x);
    }
    AttachedFront(st, e);
    InterestSame(st, t);
  }

  lemma AttachedFront(st: Loop, e: Event)
    requires Inv(st) && e in st.info && st.info[e].attached && st.info[e].queue != []
    ensures Cancel !in st.info[e].queue[0] && Listed(st)[e] == |st.info[e].queue|
  {
    assert EventOk(st, e);
  }

  lemma FinishKeeps(st: Loop, e: Event)
    requires Inv(st) && e in st.info && st.running == [e]
    ensures Inv(Finish(st, e))
  {
    hide Listed, Ok;
    var t := Finish(st, e);
    FinishLists(st, e);
    assert e in Listed(st);
    ListedIsOwned(st, e);
    assert EventOk(st, e);
    OkFinish(st.info[e], Listed(st)[e]);
    forall x | x in t.info ensures EventOk(t, x) {
      if x != e { assert EventOk(st, x); }
    }
    InterestSame(st, t);
  }

  lemma FinishLists(st: Loop, e: Event)
    requires e in st.info && st.running == [e]
    ensures Listed(st) == Listed(Finish(st, e)) + multiset{e} && e in Listed(st)
  {
  }

  /** Dispatching an entry keeps the invariant, whatever its handler does. */
  lemma DispatchKeeps(st: Loop, script: seq<Action>)
    requires Inv(st) && st.running == [] && st.active != [] && KnownAll(st, script)
    requires st.active[0] in st.info ==> Handles(st, st.active[0]) ==> FreshAll(Handling(st), script)
    ensures st.active[0] in st.info && Inv(DispatchOne(st, script)) && DispatchOne(st, script).running == []
  {
    hide EventsOk, InterestOk, RunningOk, Script, FreshAll;
    var e := st.active[0];
    assert e in Listed(st);
    ListedIsOwned(st, e);
    if Cancel in st.info[e].queue[0] {
      DeleteKeeps(st);
    } else if !st.info[e].attached {
      SkipKeeps(st);
    } else {
      HandlingKeeps(st);
      ScriptKeeps(Handling(st), script);
      FinishKeeps(Script(Handling(st), script), e);
    }
  }

  // ---------------------------------------------------------------- whole runs

  datatype Step =
    | Do(a: Action)
    | Report(fd: int, m: Mask)
    | MergeWaiting
    | Dispatch(script: seq<Action>)

  predicate Takes(st: Loop, step: Step)
    requires OwnersKnown(st)
  {
    match step
    case Do(a) => a.e in st.info && Fresh(st, a)
    case Report(_, _) => true
    case MergeWaiting => true
    case Dispatch(script) =>
      && st.active != [] && st.active[0] in st.info && KnownAll(st, script)
      && (Handles(st, st.active[0]) ==> FreshAll(Handling(st), script))
  }

  function Next(st: Loop, step: Step): (t: Loop)
    requires OwnersKnown(st) && Takes(st, step)
    ensures OwnersKnown(t) && t.info.Keys == st.info.Keys
  {
    match step
    case Do(a) => Act(st, a)
    case Report(fd, m) => Poll(st, fd, m)
    case MergeWaiting => Merge(st)
    case Dispatch(script) => DispatchOne(st, script)
  }

  predicate Runs(st: Loop, steps: seq<Step>)
    requires OwnersKnown(st)
    decreases |steps|
  {
    steps == [] || (Takes(st, steps[0]) && Runs(Next(st, steps[0]), steps[1..]))
  }

  function Run(st: Loop, steps: seq<Step>): (t: Loop)
    requires OwnersKnown(st) && Runs(st, steps)
    ensures OwnersKnown(t) && t.info.Keys == st.info.Keys
    decreases |steps|
  {
    if steps == [] then st else Run(Next(st, steps[0]), steps[1..])
  }

  /** Between steps no handler is running. */
  predicate Between(st: Loop) { Inv(st) && st.running == [] }

  /** A centre at start: events that have never been registered. */
  function Start(masks: map<Event, Mask>): Loop {
    Loop(map e | e in masks :: Info(masks[e] + {Cancel}, [], false), map[], map[], [], [], [], 0)
  }

  lemma StartHolds(masks: map<Event, Mask>)
    ensures Between(Start(masks))
  {
    var st := Start(masks);
    assert Listed(st) == multiset{};
  }

  lemma NextKeeps(st: Loop, step: Step)
    requires Between(st) && Takes(st, step)
    ensures Between(Next(st, step))
  {
    hide EventsOk, InterestOk, RunningOk, Act, Poll, DispatchOne;
    match step {
      case Do(a) => ActKeeps(st, a);
      case Report(fd, m) =>
        PollKeeps(st, fd, m);
        PollRunning(st, fd, m);
      case MergeWaiting => MergeKeeps(st);
      case Dispatch(script) => DispatchKeeps(st, script);
    }
  }

  lemma PollRunning(st: Loop, fd: int, m: Mask)
    requires OwnersKnown(st)
    ensures Poll(st, fd, m).running == st.running
  {
  }

  /** In every state of every run, each list entry points at an event that the poller owns,
      each event is listed no more often than things have occurred to it, the kernel's
      interest agrees with every registered event, and the counter counts them. */
  lemma {:induction false} RunKeeps(st: Loop, steps: seq<Step>)
    requires Between(st) && Runs(st, steps)
    ensures Between(Run(st, steps))
    decreases |steps|
  {
    hide EventsOk, InterestOk, RunningOk, Takes, Next;
    if steps != [] {
      NextKeeps(st, steps[0]);
      RunKeeps(Next(st, steps[0]), steps[1..]);
    }
  }

  // ---------------------------------------------------------------- cancelled events

  predicate Gone(st: Loop, e: Event) { e in st.info && Cancelled(st.info[e]) }

  /** A cancelled event that its CANCEL will not reach: something that occurred before it was
      never handled and never will be, or the event cares for no I/O any more. */
  predicate Stuck(st: Loop, e: Event) {
    Gone(st, e) && Owned(st, e) && (Cancel !in st.info[e].queue[0] || st.info[e].mask * IO == {})
  }

  /** Cancelled and deleted. */
  predicate Dead(st: Loop, e: Event) { Gone(st, e) && !Owned(st, e) }

  /** `CancelEvent` on a registered event. */
  lemma CancelDetaches(st: Loop, e: Event)
    requires Inv(st) && e in st.info && st.info[e].attached
    ensures Gone(DoCancel(st, e), e) && Owned(DoCancel(st, e), e)
    ensures DoCancel(st, e).info[e].queue == st.info[e].queue + [{Cancel}]
  {
    hide Listed;
    assert EventOk(st, e);
    assert st.info[e].mask * {Cancel} != {} by { assert Cancel in st.info[e].mask * {Cancel}; }
  }

  /** The fields of a cancelled event, and its ownership, survive any action. */
  lemma ActOnGone(st: Loop, a: Action, e: Event)
    requires Inv(st) && a.e in st.info && Fresh(st, a) && Gone(st, e)
    ensures var t := Act(st, a); t.info[e] == st.info[e] && Owned(t, e) == Owned(st, e)
  {
    hide Listed, EventsOk, InterestOk;
  }

  lemma {:induction false} ScriptOnGone(st: Loop, script: seq<Action>, e: Event)
    requires Inv(st) && KnownAll(st, script) && FreshAll(st, script) && Gone(st, e)
    ensures var t := Script(st, script); t.info[e] == st.info[e] && Owned(t, e) == Owned(st, e)
    decreases |script|
  {
    if script != [] {
      hide EventsOk, InterestOk, RunningOk, Act, Owned, Cancelled;
      ActKeeps(st, script[0]);
      ActOnGone(st, script[0], e);
      ScriptOnGone(Act(st, script[0]), script[1..], e);
    }
  }

  /** The step dispatches an entry of `e` and its CANCEL. */
  predicate Deletes(st: Loop, step: Step, e: Event)
    requires e in st.info
  {
    && step.Dispatch? && st.active != [] && st.active[0] == e && st.info[e].mask * IO != {}
    && st.info[e].queue != [] && Cancel in st.info[e].queue[0]
  }

  /** After `CancelEvent` returns no step starts `Handle` on the event; its fields are frozen;
      and the only step that takes it from the poller is the dispatch of an entry whose
      queue starts with CANCEL, of an event that still cares for I/O. */
  lemma StepOnGone(st: Loop, step: Step, e: Event)
    requires Between(st) && Takes(st, step) && Gone(st, e)
    ensures !Handles(st, e)
    ensures var t := Next(st, step);
      && Gone(t, e) && t.info[e] == st.info[e]
      && Owned(t, e) == (Owned(st, e) && !Deletes(st, step, e))
  {
    hide EventsOk, InterestOk, RunningOk, Act, Script, FreshAll;
    match step {
      case Do(a) => ActOnGone(st, a, e);
      case Report(fd, m) =>
      case MergeWaiting =>
      case Dispatch(script) =>
        var h := st.active[0];
        ListedFirst(st);
        ListedIsOwned(st, h);
        if Cancel !in st.info[h].queue[0] && st.info[h].attached {
          HandlingKeeps(st);
          ScriptOnGone(Handling(st), script, e);
          assert h != e;
        }
    }
  }

  lemma ListedFirst(st: Loop)
    requires st.active != []
    ensures st.active[0] in Listed(st)
  {
  }

  /** A stuck event is never deleted, in any run: its object and its descriptor's place in
      the poller are never given up. */
  lemma {:induction false} StuckForever(st: Loop, steps: seq<Step>, e: Event)
    requires Between(st) && Runs(st, steps) && Stuck(st, e)
    ensures Stuck(Run(st, steps), e)
    decreases |steps|
  {
    hide EventsOk, InterestOk, RunningOk, Takes, Next, Owned, Cancelled;
    if steps != [] {
      NextKeeps(st, steps[0]);
      StepOnGone(st, steps[0], e);
      StuckForever(Next(st, steps[0]), steps[1..], e);
    }
  }

  /** A deleted event is never owned, listed or handled again, so it is deleted once. */
  lemma {:induction false} DeadForever(st: Loop, steps: seq<Step>, e: Event)
    requires Between(st) && Runs(st, steps) && Dead(st, e)
    ensures Dead(Run(st, steps), e) && Listed(Run(st, steps))[e] == 0
    decreases |steps|
  {
    hide Takes, Next, Owned, Cancelled, Listed;
    if steps != [] {
      NextKeeps(st, steps[0]);
      StepOnGone(st, steps[0], e);
      DeadForever(Next(st, steps[0]), steps[1..], e);
    } else {
      assert EventOk(st, e);
      UnownedUnlisted(st, e);
    }
  }

  lemma UnownedUnlisted(st: Loop, e: Event)
    requires e in st.info && EventOk(st, e) && !Owned(st, e)
    ensures Listed(st)[e] == 0
  {
  }
}
