/** What reaches the handlers: which events are handled in an iteration, in which order, and with
    which occurrence. */
module Delivery {
  import opened Dispatch
  import opened DispatchRuns

  datatype Handed = Handed(e: Event, m: Mask)

  /** The calls of `Handle` that the pass over the active list makes: the event, and what
      `GetCurEv` then answers. */
  function HandedOut(st: Loop, scripts: seq<seq<Action>>): seq<Handed>
    requires OwnersKnown(st) && Works(st, scripts)
    decreases |st.active|
  {
    if st.active == [] then [] else
    var e := st.active[0];
    (if Handles(st, e) && st.info[e].queue != [] then [Handed(e, st.info[e].queue[0])] else [])
    + HandedOut(DispatchOne(st, First(scripts)), Others(scripts))
  }

  /** The entries `es` taken one by one, each with the next thing that occurred to its event;
      events that have left the centre are passed over. */
  function Hand(es: seq<Event>, info: map<Event, Info>): seq<Handed> {
    if es == [] then [] else
    var e := es[0];
    if e in info && info[e].attached && info[e].queue != [] then
      [Handed(e, info[e].queue[0])] + Hand(es[1..], info[e := info[e].(queue := info[e].queue[1..])])
    else Hand(es[1..], info)
  }

  /** No handler cancels. */
  predicate NoCancel(script: seq<Action>) { forall k | 0 <= k < |script| :: !script[k].CancelEvent? }

  predicate NoCancels(scripts: seq<seq<Action>>) { forall k | 0 <= k < |scripts| :: NoCancel(scripts[k]) }

  // ---------------------------------------------------------------- one pass

  /** What `j` has still to be handed out, `i` has in front. */
  predicate Begins(i: Info, j: Info) { i.attached == j.attached && i.queue <= j.queue }

  /** There is something in the queue for each of the entries. */
  predicate Covers(es: seq<Event>, info: map<Event, Info>) {
    forall e | e in es && e in info && info[e].attached :: multiset(es)[e] <= |info[e].queue|
  }

  /** Later occurrences do not matter. */
  lemma {:induction false} HandSame(es: seq<Event>, info: map<Event, Info>, more: map<Event, Info>)
    requires Covers(es, info)
    requires forall e | e in es :: e in info && e in more && Begins(info[e], more[e])
    ensures Hand(es, more) == Hand(es, info)
    decreases |es|
  {
    hide Covers;
    if es != [] {
      var e, rest := es[0], es[1..];
      assert es == [e] + rest;
      assert e in es;
      if info[e].attached {
        CoveredFirst(es, info);
        CoversRest(es, info);
        var info' := info[e := info[e].(queue := info[e].queue[1..])];
        HandSame(rest, info', more[e := more[e].(queue := more[e].queue[1..])]);
      } else {
        CoversOn(es, info);
        HandSame(rest, info, more);
      }
    }
  }

  lemma CoveredFirst(es: seq<Event>, info: map<Event, Info>)
    requires es != [] && Covers(es, info) && es[0] in info && info[es[0]].attached
    ensures info[es[0]].queue != []
  {
    assert es[0] in es && es[0] in multiset(es);
  }

  lemma CoversOn(es: seq<Event>, info: map<Event, Info>)
    requires es != [] && Covers(es, info)
    ensures Covers(es[1..], info)
  {
    assert es == [es[0]] + es[1..];
    assert multiset(es) == multiset{es[0]} + multiset(es[1..]);
  }

  /** No handler cancels this event. */
  predicate Spares(script: seq<Action>, e: Event) { forall k | 0 <= k < |script| :: script[k] != CancelEvent(e) }

  lemma NoCancelSpares(script: seq<Action>, e: Event)
    requires NoCancel(script)
    ensures Spares(script, e)
  {
    forall k | 0 <= k < |script| ensures script[k] != CancelEvent(e) {
      assert !script[k].CancelEvent?;
    }
  }

  /** A handler that does not cancel an event leaves it registered if it was, with what had occurred
      to it in front of its queue. */
  lemma {:induction false} ScriptBegins(st: Loop, script: seq<Action>, e: Event)
    requires OwnersKnown(st) && KnownAll(st, script) && Spares(script, e) && e in st.info && Owned(st, e)
    ensures Begins(st.info[e], Script(st, script).info[e])
    decreases |script|
  {
    if script != [] {
      hide Act, Owned;
      assert script[0] != CancelEvent(e);
      assert forall k | 0 <= k < |script[1..]| :: script[1..][k] == script[k + 1];
      ActBegins(st, script[0], e);
      ScriptBegins(Act(st, script[0]), script[1..], e);
    }
  }

  lemma ActBegins(st: Loop, a: Action, e: Event)
    requires OwnersKnown(st) && a.e in st.info && a != CancelEvent(e) && e in st.info && Owned(st, e)
    ensures Begins(st.info[e], Act(st, a).info[e]) && Owned(Act(st, a), e)
  {
    hide RegistFd, CancelFd;
  }

  lemma ActiveCovered(st: Loop)
    requires Between(st)
    ensures Covers(st.active, st.info) && forall e | e in st.active :: e in st.info && Owned(st, e)
  {
    hide Ok;
    forall e | e in st.active ensures e in st.info && Owned(st, e) {
      assert e in Listed(st);
      ListedIsOwned(st, e);
    }
    forall e | e in st.active && st.info[e].attached ensures multiset(st.active)[e] <= |st.info[e].queue| {
      assert EventOk(st, e);
      AttachedOwned(st, e);
    }
  }

  /** A pass hands out exactly the entries it was given, those of events that are still in the
      centre, in order, each with what occurred to its event first. */
  lemma {:induction false} HandedIs(st: Loop, scripts: seq<seq<Action>>)
    requires Between(st) && Works(st, scripts) && NoCancels(scripts)
    ensures HandedOut(st, scripts) == Hand(st.active, st.info)
    decreases |st.active|
  {
    hide EventsOk, InterestOk, RunningOk, FreshAll, Handles, Next, DispatchOne, Covers, Owned;
    if st.active != [] {
      var step := Dispatch(First(scripts));
      var t := DispatchOne(st, First(scripts));
      NextIs(st, step);
      NextKeeps(st, step);
      assert forall k | 0 <= k < |Others(scripts)| :: Others(scripts)[k] == scripts[k + 1];
      HandedIs(t, Others(scripts));
      ActiveCovered(st);
      HandStep(st, First(scripts));
    }
  }

  lemma HandStep(st: Loop, script: seq<Action>)
    requires Between(st) && st.active != [] && Takes(st, Dispatch(script)) && NoCancel(script)
    ensures var e, t := st.active[0], DispatchOne(st, script);
      Hand(st.active, st.info) ==
        (if Handles(st, e) && st.info[e].queue != [] then [Handed(e, st.info[e].queue[0])] else []) + Hand(t.active, t.info)
  {
    hide EventsOk, InterestOk, RunningOk, FreshAll, Script, Owned;
    var e, t := st.active[0], DispatchOne(st, script);
    var rest := st.active[1..];
    ActiveCovered(st);
    assert e in st.active && st.active == [e] + rest;
    FrontCancels(st, e);
    if Handles(st, e) {
      var popped := st.info[e := st.info[e].(queue := st.info[e].queue[1..])];
      HandledBegins(st, script);
      CoversRest(st.active, st.info);
      HandSame(rest, popped, t.info);
    }
  }

  /** After a handler that cancels nothing, the other entries find what they would have found. */
  lemma HandledBegins(st: Loop, script: seq<Action>)
    requires Between(st) && st.active != [] && Takes(st, Dispatch(script)) && NoCancel(script)
    requires Handles(st, st.active[0]) && st.info[st.active[0]].queue != []
    ensures var e, t := st.active[0], DispatchOne(st, script);
      var popped := st.info[e := st.info[e].(queue := st.info[e].queue[1..])];
      forall x | x in st.active[1..] :: x in popped && x in t.info && Begins(popped[x], t.info[x])
  {
    hide EventsOk, InterestOk, RunningOk, FreshAll, DispatchOne, Begins, Handles;
    var e, t := st.active[0], DispatchOne(st, script);
    forall x | x in st.active[1..]
      ensures x in st.info && x in t.info
      ensures Begins(st.info[e := st.info[e].(queue := st.info[e].queue[1..])][x], t.info[x])
    {
      assert x in st.active;
      NoCancelSpares(script, x);
      DispatchBegins(st, script, x);
    }
  }

  /** What a handler leaves of the queue of an event on the active list that it does not cancel. */
  lemma DispatchBegins(st: Loop, script: seq<Action>, x: Event)
    requires Between(st) && st.active != [] && Takes(st, Dispatch(script)) && Spares(script, x) && x in st.active
    requires Handles(st, st.active[0]) && st.info[st.active[0]].queue != []
    ensures var e, t := st.active[0], DispatchOne(st, script);
      && x in st.info && x in t.info
      && Begins(if x == e then st.info[x].(queue := st.info[x].queue[1..]) else st.info[x], t.info[x])
  {
    hide EventsOk, InterestOk, RunningOk, FreshAll, Script, Owned;
    ActiveCovered(st);
    HandlingKeepsOwned(st, x);
    ScriptBegins(Handling(st), script, x);
  }

  lemma HandlingKeepsOwned(st: Loop, e: Event)
    requires OwnersKnown(st) && st.active != []
    ensures Owned(Handling(st), e) == Owned(st, e) && Handling(st).info == st.info
  {
  }

  lemma FrontCancels(st: Loop, e: Event)
    requires Inv(st) && e in st.info && st.active != [] && st.active[0] == e
    ensures st.info[e].queue != []
    ensures !Handles(st, e) ==> !st.info[e].attached
  {
    assert e in Listed(st);
    ListedIsOwned(st, e);
    assert EventOk(st, e);
  }

  lemma CoversRest(es: seq<Event>, info: map<Event, Info>)
    requires es != [] && es[0] in info && info[es[0]].attached && info[es[0]].queue != [] && Covers(es, info)
    ensures var e := es[0]; Covers(es[1..], info[e := info[e].(queue := info[e].queue[1..])])
  {
    assert es == [es[0]] + es[1..];
    assert multiset(es) == multiset{es[0]} + multiset(es[1..]);
  }

  // ---------------------------------------------------------------- reports

  /** What the poller's reports come to: those whose descriptor's event is in the centre and cares
      for some of it, in order, with the I/O flags of the report. */
  function Delivered(st: Loop, ready: seq<Readiness>): seq<Handed>
    requires OwnersKnown(st)
  {
    if ready == [] then [] else
    var r := ready[0];
    (if r.fd in st.owner && st.info[st.owner[r.fd]].attached && st.info[st.owner[r.fd]].mask * r.m * IO != {}
     then [Handed(st.owner[r.fd], r.m * IO)] else [])
    + Delivered(st, ready[1..])
  }

  /** All that has occurred to the registered events is on the active list. */
  predicate AllActive(st: Loop) { Between(st) && st.waiting == [] }

  lemma {:induction false} HandMore(es: seq<Event>, info: map<Event, Info>, e: Event, m: Mask)
    requires e in info && info[e].attached && multiset(es)[e] == |info[e].queue|
    ensures Hand(es + [e], info[e := info[e].(queue := info[e].queue + [m])]) == Hand(es, info) + [Handed(e, m)]
    decreases |es|
  {
    var more := info[e := info[e].(queue := info[e].queue + [m])];
    if es == [] {
      assert es + [e] == [e] && more[e].queue == [m] && [e][1..] == [];
    } else {
      var x, rest := es[0], es[1..];
      assert es == [x] + rest;
      assert es + [e] == [x] + (rest + [e]) && (es + [e])[1..] == rest + [e];
      assert multiset(es) == multiset{x} + multiset(rest);
      if x in info && info[x].attached && info[x].queue != [] {
        var popped := info[x := info[x].(queue := info[x].queue[1..])];
        HandMore(rest, popped, e, m);
        if x == e {
          assert more[e].queue[1..] == info[e].queue[1..] + [m];
        }
        assert more[x := more[x].(queue := more[x].queue[1..])] ==
          popped[e := popped[e].(queue := popped[e].queue + [m])];
      } else {
        assert x != e;
        HandMore(rest, info, e, m);
      }
    }
  }

  /** One report. */
  lemma PollHands(st: Loop, fd: int, m: Mask)
    requires AllActive(st)
    ensures var t := Poll(st, fd, m);
      AllActive(t) && Hand(t.active, t.info) == Hand(st.active, st.info) + Delivered(st, [Readiness(fd, m)])
  {
    hide EventsOk, InterestOk, RunningOk, Hand;
    var t := Poll(st, fd, m);
    NextKeeps(st, Report(fd, m));
    assert [Readiness(fd, m)][1..] == [];
    if fd in st.owner {
      var e := st.owner[fd];
      SameFlags(st.info[e].mask, m);
      if st.info[e].attached && st.info[e].mask * (m * IO) != {} {
        AttachedListed(st, e);
        ListedActive(st, e);
        HandMore(st.active, st.info, e, m * IO);
      }
    }
  }

  lemma SameFlags(care: Mask, m: Mask)
    ensures care * m * IO == care * (m * IO)
  {
  }

  lemma ListedActive(st: Loop, e: Event)
    requires AllActive(st)
    ensures Listed(st)[e] == multiset(st.active)[e]
  {
    hide EventsOk, InterestOk, RunningOk, Filed;
  }

  lemma PollSame(st: Loop, fd: int, m: Mask, rs: seq<Readiness>)
    requires OwnersKnown(st)
    ensures Delivered(Poll(st, fd, m), rs) == Delivered(st, rs)
  {
    SameDelivered(st, Poll(st, fd, m), rs);
  }

  lemma {:induction false} SameDelivered(st: Loop, t: Loop, rs: seq<Readiness>)
    requires OwnersKnown(st) && OwnersKnown(t) && t.owner == st.owner
    requires forall fd | fd in st.owner ::
      t.info[st.owner[fd]].attached == st.info[st.owner[fd]].attached && t.info[st.owner[fd]].mask == st.info[st.owner[fd]].mask
    ensures Delivered(t, rs) == Delivered(st, rs)
  {
    if rs != [] { SameDelivered(st, t, rs[1..]); }
  }

  lemma {:induction false} PollAllHands(st: Loop, ready: seq<Readiness>)
    requires AllActive(st)
    ensures var t := PollAll(st, ready);
      AllActive(t) && Hand(t.active, t.info) == Hand(st.active, st.info) + Delivered(st, ready)
    decreases |ready|
  {
    hide EventsOk, InterestOk, RunningOk, Poll, Hand, Delivered;
    if ready == [] {
      NothingDelivered(st);
    } else {
      var r := ready[0];
      PollHands(st, r.fd, r.m);
      PollSame(st, r.fd, r.m, ready[1..]);
      PollAllHands(Poll(st, r.fd, r.m), ready[1..]);
      DeliveredFirst(st, ready);
    }
  }

  lemma NothingDelivered(st: Loop)
    requires OwnersKnown(st)
    ensures Delivered(st, []) == []
  {
  }

  lemma DeliveredFirst(st: Loop, ready: seq<Readiness>)
    requires OwnersKnown(st) && ready != []
    ensures Delivered(st, ready) == Delivered(st, [Readiness(ready[0].fd, ready[0].m)]) + Delivered(st, ready[1..])
  {
    assert [Readiness(ready[0].fd, ready[0].m)][1..] == [];
  }

  /** What an iteration hands out whose handlers cancel nothing: what was waiting or active, of
      events still in the centre, then what the poller reports to events that care for it; no
      other report reaches a handler, none is lost, and each comes with its own flags. */
  lemma IterationDelivers(st: Loop, ready: seq<Readiness>, scripts: seq<seq<Action>>)
    requires Between(st) && Works(Polled(st, ready), scripts) && NoCancels(scripts)
    ensures HandedOut(Polled(st, ready), scripts) == Hand(st.waiting + st.active, st.info) + Delivered(st, ready)
  {
    hide EventsOk, InterestOk, RunningOk, Works, HandedOut, PollAll, Hand;
    var m := Merge(st);
    NextKeeps(st, MergeWaiting);
    SameDelivered(st, m, ready);
    PollAllHands(m, ready);
    HandedIs(Polled(st, ready), scripts);
  }

  // ---------------------------------------------------------------- pushes

  function PushScript(ps: seq<Handed>): (script: seq<Action>) {
    if ps == [] then [] else [PushEvent(ps[0].e, ps[0].m)] + PushScript(ps[1..])
  }

  /** What pushes come to: those to events that are in the centre and care for some of it. */
  function Pushed(st: Loop, ps: seq<Handed>): seq<Handed>
    requires forall k | 0 <= k < |ps| :: ps[k].e in st.info
  {
    if ps == [] then [] else
    var i := st.info[ps[0].e];
    (if i.attached && i.mask * ps[0].m * IO != {} then [Handed(ps[0].e, ps[0].m * IO)] else []) + Pushed(st, ps[1..])
  }

  /** The events are registered as they were, and care for the same. */
  predicate SameCare(st: Loop, t: Loop) {
    && t.info.Keys == st.info.Keys && t.owner == st.owner
    && forall e | e in st.info :: t.info[e].attached == st.info[e].attached && t.info[e].mask == st.info[e].mask
  }

  predicate KnownPushes(st: Loop, ps: seq<Handed>) { forall k | 0 <= k < |ps| :: ps[k].e in st.info }

  lemma {:induction false} SamePushed(st: Loop, t: Loop, ps: seq<Handed>)
    requires KnownPushes(st, ps) && SameCare(st, t)
    ensures Pushed(t, ps) == Pushed(st, ps)
  {
    if ps != [] { SamePushed(st, t, ps[1..]); }
  }

  lemma PushHands(st: Loop, e: Event, m: Mask)
    requires Between(st) && st.active == [] && e in st.info
    ensures var t := DoPush(st, e, m * IO); var i := st.info[e];
      Hand(t.waiting, t.info) ==
        Hand(st.waiting, st.info) + (if i.attached && i.mask * m * IO != {} then [Handed(e, m * IO)] else [])
  {
    hide EventsOk, InterestOk, RunningOk;
    assert st.info[e].mask * m * IO == st.info[e].mask * (m * IO);
    if DoPush(st, e, m * IO) != st {
      AttachedListed(st, e);
      assert Listed(st)[e] == multiset(st.waiting)[e];
      HandMore(st.waiting, st.info, e, m * IO);
    }
  }

  lemma OnePush(st: Loop, e: Event, m: Mask)
    requires Between(st) && st.active == [] && e in st.info
    ensures var a, t := PushEvent(e, m), DoPush(st, e, m * IO);
      && Act(st, a) == t && Fresh(st, a) && Between(t) && t.active == [] && SameCare(st, t)
  {
    hide EventsOk, InterestOk, RunningOk;
    NextKeeps(st, Do(PushEvent(e, m)));
  }

  lemma {:induction false} PushesKeep(st: Loop, ps: seq<Handed>)
    requires Between(st) && st.active == [] && KnownPushes(st, ps)
    ensures var script := PushScript(ps);
      && KnownAll(st, script) && FreshAll(st, script)
      && var t := Script(st, script); Between(t) && t.active == [] && SameCare(st, t)
    decreases |ps|
  {
    hide EventsOk, InterestOk, RunningOk, DoPush, Act, Fresh;
    var script := PushScript(ps);
    if ps != [] {
      var u := DoPush(st, ps[0].e, ps[0].m * IO);
      assert script[0] == PushEvent(ps[0].e, ps[0].m) && script[1..] == PushScript(ps[1..]);
      OnePush(st, ps[0].e, ps[0].m);
      PushesKeep(u, ps[1..]);
      KnownCons(st, script);
    }
  }

  lemma {:induction false} PushesHand(st: Loop, ps: seq<Handed>)
    requires Between(st) && st.active == [] && KnownPushes(st, ps) && KnownAll(st, PushScript(ps))
    ensures var t := Script(st, PushScript(ps)); Hand(t.waiting, t.info) == Hand(st.waiting, st.info) + Pushed(st, ps)
    decreases |ps|
  {
    hide EventsOk, InterestOk, RunningOk, Hand, DoPush, Act, FreshAll, SameCare, Fresh, Listed;
    var script := PushScript(ps);
    if ps != [] {
      var u := DoPush(st, ps[0].e, ps[0].m * IO);
      assert script[0] == PushEvent(ps[0].e, ps[0].m) && script[1..] == PushScript(ps[1..]);
      OnePush(st, ps[0].e, ps[0].m);
      PushHands(st, ps[0].e, ps[0].m);
      SameKnown(st, u, ps[1..]);
      PushesKeep(u, ps[1..]);
      PushesHand(u, ps[1..]);
      SamePushed(st, u, ps[1..]);
    }
  }

  lemma SameKnown(st: Loop, t: Loop, ps: seq<Handed>)
    requires SameCare(st, t) && KnownPushes(st, ps)
    ensures KnownPushes(t, ps)
  {
  }

  lemma KnownCons(st: Loop, script: seq<Action>)
    requires script != [] && script[0].e in st.info && KnownAll(st, script[1..])
    ensures KnownAll(st, script)
  {
    assert forall k | 0 < k < |script| :: script[k] == script[1..][k - 1];
  }

  /** So with nothing listed before, an iteration hands out what was pushed to events that care for
      it, in order, and then what the poller reports to events that care for it, in order. */
  lemma PushesThenReports(st: Loop, ps: seq<Handed>, ready: seq<Readiness>, scripts: seq<seq<Action>>)
    requires Between(st) && st.active == [] == st.waiting && KnownPushes(st, ps)
    requires KnownAll(st, PushScript(ps)) && Works(Polled(Script(st, PushScript(ps)), ready), scripts) && NoCancels(scripts)
    ensures HandedOut(Polled(Script(st, PushScript(ps)), ready), scripts) == Pushed(st, ps) + Delivered(st, ready)
  {
    hide EventsOk, InterestOk, RunningOk, Works, HandedOut, Polled, Script, FreshAll, Hand, Delivered, Pushed;
    PushesKeep(st, ps);
    PushesHand(st, ps);
    var t := Script(st, PushScript(ps));
    IterationDelivers(t, ready, scripts);
    SameDelivered(st, t, ready);
    assert t.waiting + t.active == t.waiting;
    NothingListed(st);
  }

  lemma NothingListed(st: Loop)
    requires st.waiting == []
    ensures Hand(st.waiting, st.info) == []
  {
  }

  // ---------------------------------------------------------------- what an event cares for

  /** After an update that adds flags, a report reaches the event if it did before or has one of
      the flags; after one that takes them away, if it has another flag the event cares for. */
  lemma UpdateDelivers(st: Loop, e: Event, m: Mask, r: Readiness)
    requires Inv(st) && e in st.info && st.info[e].attached && r.fd == e.fd
    ensures var care := st.info[e].mask * IO;
      var added, less := DoEnable(st, e, m), DoDisable(st, e, m);
      && OwnersKnown(added) && OwnersKnown(less)
      && Delivered(added, [r]) == (if r.m * (care + m * IO) != {} then [Handed(e, r.m * IO)] else [])
      && Delivered(less, [r]) == (if r.m * (care - m) != {} then [Handed(e, r.m * IO)] else [])
      && added.info[e].mask - IO == less.info[e].mask - IO == st.info[e].mask - IO
  {
    hide Listed, RegistFd, CancelFd, InterestOk, Ok;
    assert EventOk(st, e);
    AttachedOwned(st, e);
    var i := st.info[e];
    assert (i.mask + m * IO) * r.m * IO == r.m * (i.mask * IO + m * IO);
    assert (i.mask - m * IO) * r.m * IO == r.m * (i.mask * IO - m);
    assert (i.mask + m * IO) - IO == i.mask - IO && (i.mask - m * IO) - IO == i.mask - IO;
    assert [r][1..] == [];
  }

  /** Not in the centre, and caring for no I/O. */
  predicate Inert(st: Loop, e: Event) { e in st.info && !st.info[e].attached && st.info[e].mask * IO == {} }

  lemma ActOnInert(st: Loop, a: Action, e: Event)
    requires OwnersKnown(st) && a.e in st.info && Inert(st, e)
    ensures var t := Act(st, a); t.info[e] == st.info[e] && Owned(t, e) == Owned(st, e)
  {
    hide RegistFd, CancelFd;
  }

  lemma {:induction false} ScriptOnInert(st: Loop, script: seq<Action>, e: Event)
    requires OwnersKnown(st) && KnownAll(st, script) && Inert(st, e)
    ensures var t := Script(st, script); t.info[e] == st.info[e] && Owned(t, e) == Owned(st, e)
    decreases |script|
  {
    hide Act, Owned;
    if script != [] {
      ActOnInert(st, script[0], e);
      ScriptOnInert(Act(st, script[0]), script[1..], e);
    }
  }

  lemma StepOnInert(st: Loop, step: Step, e: Event)
    requires Between(st) && Takes(st, step) && Inert(st, e)
    ensures !Handles(st, e)
    ensures var t := Next(st, step); t.info[e] == st.info[e] && Owned(t, e) == Owned(st, e)
  {
    hide EventsOk, InterestOk, RunningOk, Act, Script, FreshAll;
    match step {
      case Do(a) => ActOnInert(st, a, e);
      case Report(fd, m) =>
      case MergeWaiting =>
      case Dispatch(script) =>
        var h := st.active[0];
        ListedFirst(st);
        ListedIsOwned(st, h);
        if Cancel !in st.info[h].queue[0] && st.info[h].attached {
          ScriptOnInert(Handling(st), script, e);
          assert h != e;
        }
    }
  }

  /** An event that cares for no I/O is registered and handled in no run, and none puts it into the
      poller's map or takes it out. */
  lemma {:induction false} InertForever(st: Loop, steps: seq<Step>, e: Event)
    requires Between(st) && Runs(st, steps) && Inert(st, e)
    ensures Run(st, steps).info[e] == st.info[e] && Owned(Run(st, steps), e) == Owned(st, e)
    ensures !Handles(Run(st, steps), e)
    decreases |steps|
  {
    hide EventsOk, InterestOk, RunningOk, Takes, Next, Owned;
    if steps != [] {
      NextKeeps(st, steps[0]);
      StepOnInert(st, steps[0], e);
      InertForever(Next(st, steps[0]), steps[1..], e);
    }
  }

  // ---------------------------------------------------------------- one event, whatever handlers do

  /** The occurrences handed to the event. */
  function MasksOf(hs: seq<Handed>, e: Event): seq<Mask> {
    if hs == [] then [] else (if hs[0].e == e then [hs[0].m] else []) + MasksOf(hs[1..], e)
  }

  lemma {:induction false} MasksConcat(a: seq<Handed>, b: seq<Handed>, e: Event)
    ensures MasksOf(a + b, e) == MasksOf(a, e) + MasksOf(b, e)
  {
    if a == [] {
      assert a + b == b && [] + MasksOf(b, e) == MasksOf(b, e);
    } else {
      var all, rest := a + b, a[1..];
      assert all[0] == a[0] && all[1..] == rest + b;
      MasksConcat(rest, b, e);
      var first := if a[0].e == e then [a[0].m] else [];
      assert first + (MasksOf(rest, e) + MasksOf(b, e)) == (first + MasksOf(rest, e)) + MasksOf(b, e);
    }
  }

  predicate AllSpare(scripts: seq<seq<Action>>, e: Event) { forall k | 0 <= k < |scripts| :: Spares(scripts[k], e) }

  /** The first entry's call, if there is one. */
  function FirstHanded(st: Loop): seq<Handed>
    requires st.active != [] && st.active[0] in st.info
  {
    var f := st.active[0];
    if Handles(st, f) && st.info[f].queue != [] then [Handed(f, st.info[f].queue[0])] else []
  }

  lemma FirstMask(st: Loop, e: Event)
    requires Between(st) && st.active != [] && e in st.info && st.info[e].attached
    ensures st.active[0] in st.info
    ensures MasksOf(FirstHanded(st), e) == if st.active[0] == e then st.info[e].queue[..1] else []
    ensures st.active[0] == e ==> Handles(st, e) && st.info[e].queue != []
  {
    var f := st.active[0];
    ListedFirst(st);
    ListedIsOwned(st, f);
    if f == e { FrontCancels(st, e); }
    if FirstHanded(st) != [] {
      assert [FirstHanded(st)[0]] == FirstHanded(st) && FirstHanded(st)[1..] == [];
    }
  }

  /** In a pass in which no handler cancels a registered event, its handler is called for each of
      its entries, with what occurred to it in the order in which it occurred. */
  lemma {:induction false} HandedToOne(st: Loop, scripts: seq<seq<Action>>, e: Event)
    requires Between(st) && Works(st, scripts) && AllSpare(scripts, e)
    requires e in st.info && st.info[e].attached
    ensures multiset(st.active)[e] <= |st.info[e].queue|
    ensures MasksOf(HandedOut(st, scripts), e) == st.info[e].queue[..multiset(st.active)[e]]
    decreases |st.active|
  {
    hide EventsOk, InterestOk, RunningOk, FreshAll, Handles, Next, DispatchOne, FirstHanded, MasksOf, HandedOut, Spares;
    CoveredHere(st, e);
    if st.active == [] {
      NothingHanded(st, scripts, e);
    } else {
      WorksFirst(st, scripts);
      AllSpareFirst(scripts, e);
      var t := DispatchOne(st, First(scripts));
      OneStep(st, First(scripts), e);
      HandedToOne(t, Others(scripts), e);
      HandedFirst(st, scripts);
      MasksConcat(FirstHanded(st), HandedOut(t, Others(scripts)), e);
      FirstMask(st, e);
      SliceOn(st.info[e].queue, t.info[e].queue, multiset(t.active)[e]);
    }
  }

  lemma SliceOn<T>(q: seq<T>, r: seq<T>, c: nat)
    requires c <= |r|
    ensures c + 1 <= |q| && q[1..] <= r ==> q[..1] + r[..c] == q[..c + 1]
    ensures c <= |q| && q <= r ==> [] + r[..c] == q[..c]
  {
  }

  lemma CoveredHere(st: Loop, e: Event)
    requires Between(st) && e in st.info && st.info[e].attached
    ensures multiset(st.active)[e] <= |st.info[e].queue|
  {
    ActiveCovered(st);
    if e !in st.active { assert multiset(st.active)[e] == 0; }
  }

  lemma NothingHanded(st: Loop, scripts: seq<seq<Action>>, e: Event)
    requires OwnersKnown(st) && Works(st, scripts) && st.active == [] && e in st.info
    ensures MasksOf(HandedOut(st, scripts), e) == [] == st.info[e].queue[..multiset(st.active)[e]]
  {
  }

  lemma WorksFirst(st: Loop, scripts: seq<seq<Action>>)
    requires Between(st) && Works(st, scripts) && st.active != []
    ensures Takes(st, Dispatch(First(scripts)))
    ensures var t := DispatchOne(st, First(scripts)); Between(t) && Works(t, Others(scripts)) && |t.active| < |st.active|
  {
    hide EventsOk, InterestOk, RunningOk, FreshAll, Handles, Next, DispatchOne;
    NextIs(st, Dispatch(First(scripts)));
    NextKeeps(st, Dispatch(First(scripts)));
  }

  lemma AllSpareFirst(scripts: seq<seq<Action>>, e: Event)
    requires AllSpare(scripts, e)
    ensures Spares(First(scripts), e) && AllSpare(Others(scripts), e)
  {
    assert forall k | 0 <= k < |Others(scripts)| :: Others(scripts)[k] == scripts[k + 1];
  }

  lemma HandedFirst(st: Loop, scripts: seq<seq<Action>>)
    requires OwnersKnown(st) && Works(st, scripts) && st.active != []
    ensures st.active[0] in st.info
    ensures HandedOut(st, scripts) == FirstHanded(st) + HandedOut(DispatchOne(st, First(scripts)), Others(scripts))
  {
    hide DispatchOne;
  }

  lemma OneStep(st: Loop, script: seq<Action>, e: Event)
    requires Between(st) && st.active != [] && Takes(st, Dispatch(script)) && Spares(script, e)
    requires e in st.info && st.info[e].attached
    ensures var t := DispatchOne(st, script); var c := multiset(st.active)[e];
      && e in t.info && t.info[e].attached
      && (st.active[0] == e ==> multiset(t.active)[e] == c - 1 && st.info[e].queue[1..] <= t.info[e].queue)
      && (st.active[0] != e ==> multiset(t.active)[e] == c && st.info[e].queue <= t.info[e].queue)
  {
    hide EventsOk, InterestOk, RunningOk, FreshAll, Script;
    var f, t := st.active[0], DispatchOne(st, script);
    assert st.active == [f] + st.active[1..];
    assert multiset(st.active) == multiset{f} + multiset(st.active[1..]);
    FirstMask(st, e);
    if Handles(st, f) {
      ListedOwnedHere(st, e);
      ScriptBegins(Handling(st), script, e);
    }
  }

  lemma ListedOwnedHere(st: Loop, e: Event)
    requires Inv(st) && e in st.info && st.info[e].attached && st.active != []
    ensures Owned(Handling(st), e)
  {
    assert EventOk(st, e);
  }

  lemma {:induction false} PollsQueue(st: Loop, ready: seq<Readiness>, e: Event)
    requires Between(st) && e in st.info && st.info[e].attached
    ensures var t := PollAll(st, ready);
      t.info[e].attached && t.info[e].queue == st.info[e].queue + MasksOf(Delivered(st, ready), e)
    decreases |ready|
  {
    hide EventsOk, InterestOk, RunningOk, Delivered, MasksOf, Poll;
    if ready == [] {
      NothingDelivered(st);
      NoMasks(e);
    } else {
      var r := ready[0];
      var u := Poll(st, r.fd, r.m);
      NextKeeps(st, Report(r.fd, r.m));
      PollQueue(st, r.fd, r.m, e);
      PollsQueue(u, ready[1..], e);
      PollSame(st, r.fd, r.m, ready[1..]);
      DeliveredFirst(st, ready);
      MasksConcat(Delivered(st, [Readiness(r.fd, r.m)]), Delivered(st, ready[1..]), e);
    }
  }

  lemma NoMasks(e: Event)
    ensures MasksOf([], e) == []
  {
  }

  lemma PollQueue(st: Loop, fd: int, m: Mask, e: Event)
    requires Inv(st) && e in st.info && st.info[e].attached
    ensures var t := Poll(st, fd, m);
      t.info[e].attached && t.info[e].queue == st.info[e].queue + MasksOf(Delivered(st, [Readiness(fd, m)]), e)
  {
    hide EventsOk, InterestOk, RunningOk;
    assert [Readiness(fd, m)][1..] == [];
    var d := Delivered(st, [Readiness(fd, m)]);
    if fd in st.owner { SameFlags(st.info[st.owner[fd]].mask, m); }
    if d != [] { assert [d[0]] == d && d[1..] == []; }
  }

  /** So in an iteration a registered event that no handler cancels gets all that had occurred to it
      and then each report that it cares for, and nothing else, whatever handlers do. */
  lemma IterationReaches(st: Loop, ready: seq<Readiness>, scripts: seq<seq<Action>>, e: Event)
    requires Between(st) && Works(Polled(st, ready), scripts) && AllSpare(scripts, e)
    requires e in st.info && st.info[e].attached
    ensures MasksOf(HandedOut(Polled(st, ready), scripts), e) == st.info[e].queue + MasksOf(Delivered(st, ready), e)
  {
    hide EventsOk, InterestOk, RunningOk, Works, HandedOut, PollAll, MasksOf;
    var m := Merge(st);
    NextKeeps(st, MergeWaiting);
    SameDelivered(st, m, ready);
    PollsQueue(m, ready, e);
    PollAllHands(m, ready);
    var p := Polled(st, ready);
    HandedToOne(p, scripts, e);
    AttachedListed(p, e);
    ListedActive(p, e);
  }
}
