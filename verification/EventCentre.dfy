/** `chaos::EventCentre` with the fd map of its `Poller` and the interest that `Epoll` has
    given to the kernel, over event objects. */
module Centre {

  import opened Dispatch
  import opened DispatchRuns

  class EventCentre {
    var activeEvs: seq<Event>
    var waittingEvs: seq<Event>
    var eventsNum: int
    var events: map<int, Event>  // the poller's
    var kernel: map<int, Mask>   // the epoll instance's

    ghost var known: set<Event>     // every event object of the program
    ghost var running: seq<Event>   // the event being handled
    ghost var done: nat             // how much of `activeEvs` has been dispatched

    ghost function Abs(): (st: Loop)
      requires done <= |activeEvs|
      reads this, known
      ensures st.info.Keys == known
    {
      Loop(map e | e in known :: Info(e.ev, e.curEv, e.attached),
           events, kernel, activeEvs[done..], waittingEvs, running, eventsNum)
    }

    ghost predicate Valid()
      reads this, known
    {
      done <= |activeEvs| && Inv(Abs())
    }

    /** Inside an operation only this much is sure. */
    ghost predicate Shaped()
      reads this, known
    {
      done <= |activeEvs| && OwnersKnown(Abs())
    }

    constructor ()
      ensures Valid() && fresh(this) && known == {} && running == [] && done == 0 && Abs() == Start(map[])
    {
      activeEvs, waittingEvs, eventsNum, events, kernel := [], [], 0, map[], map[];
      known, running, done := {}, [], 0;
      new;
      StartHolds(map[]);
      assert Abs() == Start(map[]);
    }

    // ------------------------------------------------------------ Epoll, Poller

    /** `ctlOk` says whether the kernel accepts the descriptor. ADD of a descriptor that is
        already there and the MOD that follows it come to the same. */
    method RegistFd(fd: int, m: Mask, ctlOk: bool) returns (ret: int)
      requires Shaped()
      modifies this`kernel
      ensures ret == 0 <==> fd in events && ctlOk
      ensures kernel == if ret == 0 then Dispatch.RegistFd(old(Abs()), fd, m) else old(kernel)
    {
      if fd !in events { return -1; }
      if !ctlOk { return -1; }
      kernel := kernel[fd := (events[fd].ev + m) * RW];
      return 0;
    }

    method CancelFd(fd: int, m: Mask)
      requires Shaped()
      modifies this`kernel
      ensures kernel == Dispatch.CancelFd(old(Abs()), fd, m)
    {
      if fd !in events {
        kernel := kernel - {fd};
        return;
      }
      var left := (events[fd].ev - m) * RW;
      if left != {} {
        if fd in kernel { kernel := kernel[fd := left]; }
        return;
      }
      kernel := kernel - {fd};
    }
  
    /** `Poller::AddEvent`. */
    method AddEvent(e: Event, ctlOk: bool) returns (ret: int)
      requires Shaped() && e in known
      modifies this`events, this`kernel
      ensures ret == 0 <==> e.fd !in old(events) && ctlOk
      ensures if ret == 0 then
          && events == old(events)[e.fd := e]
          && Shaped() && kernel == Dispatch.RegistFd(old(Abs()).(owner := events), e.fd, e.ev)
        else events == old(events) && kernel == old(kernel)
    {
      if e.fd in events { return -1; }
      events := events[e.fd := e];
      ret := RegistFd(e.fd, e.ev, ctlOk);
      if ret != 0 {
        events := events - {e.fd};
        return -1;
      }
    }

    /** `Poller::DelEvent`. */
    method DelEvent(e: Event)
      requires Shaped() && e in known
      modifies this`events, this`kernel
      ensures events == old(events) - {e.fd}
      ensures kernel == Dispatch.CancelFd(old(Abs()), e.fd, e.ev)
    {
      CancelFd(e.fd, e.ev);
      events := events - {e.fd};
    }

    /** `Poller::UpdateFd`, which `EventCentre::UpdateEvent` calls for a descriptor it knows. */
    method UpdateFd(fd: int, add: bool, m: Mask)
      requires Shaped()
      modifies this`kernel
      ensures kernel ==
        if fd !in events then old(kernel)
        else if add then Dispatch.RegistFd(old(Abs()), fd, m) else Dispatch.CancelFd(old(Abs()), fd, m)
    {
      if fd !in events { return; }
      if add {
        var ret := RegistFd(fd, m, true);
      } else {
        CancelFd(fd, m);
      }
    }

    // ------------------------------------------------------------ operations

    /** A new event object becomes known. */
    ghost method Admit(e: Event)
      requires Valid() && e !in known && e.curEv == [] && !e.attached && Cancel in e.ev
      modifies this`known
      ensures Valid() && known == old(known) + {e}
      ensures Abs() == old(Abs()).(info := old(Abs()).info[e := Info(e.ev, [], false)])
      ensures running == old(running)
    {
      hide EventsOk, InterestOk, RunningOk, Listed;
      AdmitKeeps(Abs(), e, Info(e.ev, [], false));
      known := known + {e};
      assert Abs() == old(Abs()).(info := old(Abs()).info[e := Info(e.ev, [], false)]);
    }

    method RegisterEvent(e: Event, ctlOk: bool) returns (ret: int)
      requires Shaped() && e in known
      modifies this`events, this`kernel, this`eventsNum, e`attached
      ensures Shaped() && Abs() == DoRegister(old(Abs()), e, ctlOk)
      ensures ret == 0 <==> old(Registers(Abs(), e, ctlOk))
    {
      hide Dispatch.RegistFd;
      if e.attached { return -1; }
      if e.ev * IO == {} { return -1; }
      ret := AddEvent(e, ctlOk);
      if ret != 0 { return ret; }
      e.attached := true;
      eventsNum := eventsNum + 1;
      ghost var st := old(Abs());
      assert Abs().info == st.info[e := st.info[e].(attached := true)];
    }

    method PushEvent(e: Event, m: Mask)
      requires Shaped() && e in known
      modifies this`waittingEvs, e`curEv
      ensures Shaped() && Abs() == DoPush(old(Abs()), e, m)
    {
      if !e.attached || e.ev * m == {} { return; }
      e.curEv := e.curEv + [m];
      waittingEvs := waittingEvs + [e];
      assert Abs() == DoPush(old(Abs()), e, m);
    }

    method CancelEvent(e: Event)
      requires Shaped() && e in known
      modifies this`waittingEvs, e`curEv, e`attached
      ensures Shaped() && Abs() == DoCancel(old(Abs()), e)
    {
      if !e.attached { return; }
      PushEvent(e, {Cancel});
      e.attached := false;
      assert Abs() == DoCancel(old(Abs()), e);
    }

    /** `Event::UpdateEvent` and the centre's; `Connecter` passes I/O flags only. */
    method UpdateEvent(e: Event, add: bool, m: Mask)
      requires Shaped() && e in known
      modifies this`kernel, e`ev
      ensures Shaped() && Abs() == if add then DoEnable(old(Abs()), e, m) else DoDisable(old(Abs()), e, m)
    {
      if !e.attached { return; }
      if add { e.ev := e.ev + m * IO; } else { e.ev := e.ev - m * IO; }
      assert Abs() == SetInfo(old(Abs()), e, Info(e.ev, e.curEv, true));
      if e.fd in events {
        UpdateFd(e.fd, add, m * IO);
      }
    }

    /** `Poller::PushActiveEvent`. */
    method PushActiveEvent(fd: int, m: Mask)
      requires Shaped()
      modifies this`activeEvs, if fd in events then {events[fd]} else {}
      ensures Shaped() && Abs() == Poll(old(Abs()), fd, m)
    {
      if fd !in events { return; }
      var e := events[fd];
      if !e.attached || e.ev * (m * IO) == {} { return; }
      e.curEv := e.curEv + [m * IO];
      activeEvs := activeEvs + [e];
      assert Abs() == Poll(old(Abs()), fd, m);
    }

    method MakeWaittingToActive()
      requires Shaped() && done == 0
      modifies this`activeEvs, this`waittingEvs
      ensures Shaped() && Abs() == Merge(old(Abs()))
    {
      if waittingEvs != [] {
        activeEvs := waittingEvs + activeEvs;
        waittingEvs := [];
      }
      assert Abs() == Merge(old(Abs()));
    }

    method DeleteEvent(e: Event)
      requires Shaped() && e in known
      modifies this`events, this`kernel, this`eventsNum
      ensures Shaped() && Abs() == Delete(old(Abs()), e)
    {
      if e.ev * IO == {} { return; }
      DelEvent(e);
      eventsNum := eventsNum - 1;
      assert Abs() == Delete(old(Abs()), e);
    }

    // ------------------------------------------------------------ dispatching

    method Perform(a: Action)
      requires Shaped() && a.e in known
      modifies this`events, this`kernel, this`eventsNum, this`waittingEvs, a.e
      ensures Shaped() && Abs() == Act(old(Abs()), a)
    {
      hide DoRegister, DoCancel, DoPush, DoEnable, DoDisable;
      match a {
        case Register(e, ctlOk) => var ret := RegisterEvent(e, ctlOk);
        case CancelEvent(e) => CancelEvent(e);
        case PushEvent(e, m) => PushEvent(e, m * IO);
        case Enable(e, m) => UpdateEvent(e, true, m);
        case Disable(e, m) => UpdateEvent(e, false, m);
      }
    }

    /** A handler: it does what `script` says. */
    method Handle(script: seq<Action>)
      requires Shaped() && KnownAll(Abs(), script)
      modifies this`events, this`kernel, this`eventsNum, this`waittingEvs, known
      ensures Shaped() && Abs() == Script(old(Abs()), script)
      decreases |script|
    {
      hide Act;
      if script != [] {
        Perform(script[0]);
        Handle(script[1..]);
      }
    }
  
    /** One pass of the loop in `ProcessActiveEvent`, over entry `i`. */
    method DispatchEntry(i: nat, script: seq<Action>)
      requires Shaped() && running == [] && i == done < |activeEvs| && Takes(Abs(), Dispatch(script))
      modifies this`events, this`kernel, this`eventsNum, this`waittingEvs, this`running, this`done, known
      ensures Shaped() && running == [] && done == i + 1 && Abs() == DispatchOne(old(Abs()), script)
    {
      hide Script, FreshAll;
      var pev := activeEvs[i];
      assert pev == Abs().active[0];
      done := i + 1;
      assert Abs() == old(Abs()).(active := old(Abs()).active[1..]);
      if pev.curEv != [] && Cancel in pev.curEv[0] {
        DeleteEvent(pev);
        return;
      }
      if !pev.attached { return; }
      running := [pev];
      assert Abs() == old(Abs()).(active := old(Abs()).active[1..], running := [pev]);
      Handle(script);
      PopCurEv(pev);
    }

    /** `PopCurEv` after a handler. */
    method PopCurEv(pev: Event)
      requires Shaped() && pev in known
      modifies this`running, pev`curEv
      ensures Shaped() && running == [] && Abs() == Finish(old(Abs()), pev)
    {
      if pev.curEv != [] { pev.curEv := pev.curEv[1..]; }
      running := [];
      assert Abs() == Finish(old(Abs()), pev);
    }

    /** The handlers of the entries do what `scripts` says, in order. */
    method ProcessActiveEvent(scripts: seq<seq<Action>>)
      requires Shaped() && running == [] && done == 0 && Works(Abs(), scripts)
      modifies this, known
      ensures Shaped() && running == [] && done == 0 && known == old(known)
      ensures Abs() == DispatchAll(old(Abs()), scripts)
    {
      hide DispatchOne, FreshAll, Handles, Works, DispatchAll;
      var i := 0;
      var left := scripts;
      while i < |activeEvs|
        invariant i <= |activeEvs| && i == done && Shaped() && running == [] && known == old(known)
        invariant activeEvs == old(activeEvs)
        invariant Works(Abs(), left) && DispatchAll(Abs(), left) == DispatchAll(old(Abs()), scripts)
      {
        assert Abs().active != [];
        WorksFirst(Abs(), left);
        DispatchEntry(i, First(left));
        i, left := i + 1, Others(left);
      }
      DispatchNone(Abs(), left);
      activeEvs, done := [], 0;
      assert Abs() == old(DispatchAll(Abs(), scripts));
    }

    /** One iteration of `EventLoop`: `ready` is what the poller finds. */
    method Iterate(ready: seq<Readiness>, scripts: seq<seq<Action>>)
      requires Valid() && running == [] && done == 0 && Works(Polled(Abs(), ready), scripts)
      modifies this, known
      ensures Valid() && running == [] && done == 0 && known == old(known)
      ensures Abs() == Iteration(old(Abs()), ready, scripts)
    {
      hide EventsOk, InterestOk, RunningOk, Listed, Works, DispatchAll;
      IterationKeeps(Abs(), ready, scripts);
      MakeWaittingToActive();
      Launch(ready);
      ProcessActiveEvent(scripts);
    }

    /** `Poller::Launch`. */
    method Launch(ready: seq<Readiness>)
      requires Shaped()
      modifies this`activeEvs, known
      ensures Shaped() && Abs() == PollAll(old(Abs()), ready)
      decreases |ready|
    {
      hide Poll;
      if ready != [] {
        PushActiveEvent(ready[0].fd, ready[0].m);
        Launch(ready[1..]);
      }
    }
  }

  lemma AdmitKeeps(st: Loop, e: Event, i: Info)
    requires Inv(st) && e !in st.info && i.queue == [] && !i.attached && Cancel in i.mask
    ensures Inv(SetInfo(st, e, i))
  {
    hide Listed, Ok;
    var t := SetInfo(st, e, i);
    SameLists(st, t);
    RunningListed(st);
    assert e !in Listed(st) && !Owned(t, e);
    OkBlank(i);
    forall x | x in t.info ensures EventOk(t, x) {
      if x != e { assert EventOk(st, x); }
    }
  }

  lemma WorksFirst(st: Loop, scripts: seq<seq<Action>>)
    requires OwnersKnown(st) && Works(st, scripts) && st.active != []
    ensures Takes(st, Dispatch(First(scripts)))
    ensures var t := DispatchOne(st, First(scripts));
      Works(t, Others(scripts)) && DispatchAll(t, Others(scripts)) == DispatchAll(st, scripts)
  {
  }

  lemma DispatchNone(st: Loop, scripts: seq<seq<Action>>)
    requires OwnersKnown(st) && Works(st, scripts) && st.active == []
    ensures DispatchAll(st, scripts) == st
  {
  }

  lemma RunningListed(st: Loop)
    ensures forall x | x in st.running :: x in Listed(st)
  {
  }

  lemma OkBlank(i: Info)
    requires i.queue == [] && !i.attached && Cancel in i.mask
    ensures Ok(i, 0, false)
  {
  }
}
