// What wakes a parked fiber, how often, and what it finds when it runs again.

module HookWakes {
  import opened Common
  import T = TimerSpec
  import I = IoSpec
  import opened HookProtocol
  import opened HookRuns

  // --------------------------------------------------------------- locations

  /** A parked fiber that is not queued stands in the slot it asked for. */
  predicate Located(w: World, f: FiberId) {
    f in w.fibers && w.fibers[f].Parked? && InSlots(w, f) > 0 ==>
      I.Holds(w.io, w.fibers[f].fd, w.fibers[f].e, Waiter(f))
  }

  ghost predicate Full(w: World) {
    Inv(w) && forall f: FiberId :: Located(w, f)
  }

  /** The slot of a waiter is untouched, or its waiter was handed over. */
  ghost predicate Moves(io: I.State, io': I.State, fd: nat, e: I.Event, h: I.Hand) {
    I.Holds(io, fd, e, h) ==> I.Holds(io', fd, e, h) || I.Passed(io, io', h)
  }

  lemma {:induction false} PassedTask(hs: seq<I.Hand>, f: FiberId)
    requires Waiter(f) in hs
    ensures FiberTask(f) in TasksOf(hs)
  {
    var init, h := hs[..|hs| - 1], hs[|hs| - 1];
    assert hs == init + [h];
    if h != Waiter(f) {
      PassedTask(init, f);
    }
  }

  /** A waiter handed over is a task queued. */
  lemma PassedQueues(w: World, io: I.State, f: FiberId)
    requires I.Passed(w.io, io, Waiter(f))
    ensures InQueue(WithIo(w, io), FiberTask(f)) > InQueue(w, FiberTask(f))
  {
    var hs := NewHands(w.io, io);
    PassedTask(hs, f);
    assert multiset(w.queue + TasksOf(hs)) == multiset(w.queue) + multiset(TasksOf(hs));
  }

  lemma OneToken(w: World, f: FiberId)
    requires Inv(w) && f in w.fibers && w.fibers[f].Parked?
    ensures InSlots(w, f) + InQueue(w, FiberTask(f)) == 1
  {
    hide Sound, ParkOk, TimeoutsFirst;
    assert FiberOk(w, f);
  }

  lemma IoLocated(w: World, io: I.State, f: FiberId)
    requires Inv(WithIo(w, io)) && Located(w, f) && InSlots(WithIo(w, io), f) <= InSlots(w, f)
    requires f in w.fibers && w.fibers[f].Parked? ==> Moves(w.io, io, w.fibers[f].fd, w.fibers[f].e, Waiter(f))
    ensures Located(WithIo(w, io), f)
  {
    hide Inv, InSlots, InQueue, WithIo, I.Holds, I.Passed;
    var w' := WithIo(w, io);
    IoFrame(w, io);
    IoKept(w, io);
    if f in w.fibers && w.fibers[f].Parked? && I.Passed(w.io, io, Waiter(f)) {
      PassedQueues(w, io, f);
      OneToken(w', f);
    }
  }

  lemma IoKept(w: World, io: I.State)
    ensures WithIo(w, io).io == io
  {
  }

  /** An event call that moves waiters only out of their slots. */
  lemma IoAllLocated(w: World, io: I.State)
    requires Full(w) && I.Inv(io)
    requires io.added == w.io.added && io.deleted == w.io.deleted && w.io.handed <= io.handed
    requires forall fd, e, h :: Moves(w.io, io, fd, e, h)
    ensures Full(WithIo(w, io))
  {
    hide Inv, I.Inv, InSlots, WithIo, Located, Moves;
    IoStep(w, io);
    SoundPart(w);
    forall f: FiberId
      ensures Located(WithIo(w, io), f)
    {
      IoTokens(w, io, f);
      if f in w.fibers && w.fibers[f].Parked? {
        assert Moves(w.io, io, w.fibers[f].fd, w.fibers[f].e, Waiter(f));
      }
      IoLocated(w, io, f);
    }
  }

  lemma SoundPart(w: World)
    requires Inv(w)
    ensures Sound(w)
  {
  }

  /** Steps that leave the slots alone and park nobody. */
  lemma SameSlots(w: World, w': World)
    requires Full(w) && Inv(w') && w'.io == w.io
    requires forall f :: f in w'.fibers && w'.fibers[f].Parked? ==> f in w.fibers && w.fibers[f] == w'.fibers[f]
    ensures Full(w')
  {
    hide Inv, I.Holds;
    forall f: FiberId
      ensures Located(w', f)
    {
      assert Located(w, f);
      SlotsOnly(w, w', f);
    }
  }

  lemma SlotsOnly(w: World, w': World, f: FiberId)
    requires w'.io == w.io
    ensures InSlots(w', f) == InSlots(w, f)
  {
  }

  lemma CancelMoves(w: World, fd: nat, e: I.Event, allowed: bool)
    requires Full(w)
    ensures Full(WithIo(w, I.CancelEvent(w.io, fd, e, allowed).0))
    ensures Full(WithIo(w, I.CancelAll(w.io, fd, allowed).0))
  {
    hide Inv, I.Inv, I.CancelEvent, I.CancelAll, I.Holds, I.Passed, Located, WithIo;
    IoPart(w);
    var one, all := I.CancelEvent(w.io, fd, e, allowed).0, I.CancelAll(w.io, fd, allowed).0;
    I.CancelEventInv(w.io, fd, e, allowed);
    I.CancelAllInv(w.io, fd, allowed);
    forall at, dir, h
      ensures Moves(w.io, one, at, dir, h) && Moves(w.io, all, at, dir, h)
    {
      if I.Holds(w.io, at, dir, h) {
        I.CancelEventMoves(w.io, fd, e, allowed, at, dir, h);
        I.CancelAllMoves(w.io, fd, allowed, at, dir, h);
      }
    }
    IoAllLocated(w, one);
    IoAllLocated(w, all);
  }

  lemma IdleMoves(w: World, probe: nat, batch: seq<I.Report>)
    requires Full(w) && OnlyUsers(w.queue) && I.Faithful(w.io, batch)
    ensures Full(DoIdle(w, probe, batch))
  {
    hide Inv, I.Inv, I.DeliverAll, I.Faithful, I.Holds, I.Passed, I.Reported, Located, WithIo, DoIdle, Fired;
    IdleInv(w, probe, batch);
    IoPart(w);
    I.FaithfulBatch(w.io, batch);
    var w1 := AfterTimers(w, probe);
    TimersFireInv(w, probe);
    SameSlots(w, w1);
    var io := I.DeliverAll(w.io, batch).0;
    forall at, dir, h
      ensures Moves(w1.io, io, at, dir, h)
    {
      if I.Holds(w.io, at, dir, h) {
        I.BatchMoves(w.io, batch, at, dir, h);
      }
    }
    IoAllLocated(w1, io);
  }

  lemma ParkMoves(w: World, f: FiberId, fd: nat, e: I.Event, to: Option<nat>, call: CallId, timer: TimerId)
    requires Full(w) && Legal(w, Park(f, fd, e, to, call, timer, true))
    ensures Full(DoPark(w, f, fd, e, to, call, timer, true))
  {
    hide Inv, I.Inv, I.AddEvent, I.Holds, InSlots, Timed, I.Handed;
    var w' := DoPark(w, f, fd, e, to, call, timer, true);
    ParkedInv(w, f, fd, e, to, call, timer);
    ParkIo(w, f, fd, e, to, call, timer, true);
    SoundPart(w');
    forall g: FiberId
      ensures Located(w', g)
    {
      AddMoves(w, w', f, fd, e, g);
    }
  }

  lemma ParkIo(w: World, f: FiberId, fd: nat, e: I.Event, to: Option<nat>, call: CallId, timer: TimerId, allowed: bool)
    requires Inv(w) && Legal(w, Park(f, fd, e, to, call, timer, allowed))
    ensures var w' := DoPark(w, f, fd, e, to, call, timer, allowed);
            (w'.io, I.Returned(allowed)) == I.AddEvent(w.io, fd, e, None, f, 0, allowed)
  {
    hide Sound, TimeoutsFirst, I.AddEvent, Timed, T.DoCancel, InSlots, InQueue, Alive, T.At, FiberOk, TimerOk;
    TimedSame(w, f, fd, e, to, call, timer);
    WaitAdds(w, f, fd, e, allowed);
  }

  lemma AddMoves(w: World, w': World, f: FiberId, fd: nat, e: I.Event, g: FiberId)
    requires Full(w) && Sound(w') && Runs(w, f) && (fd < |w.io.ctxs| ==> !w.io.ctxs[fd].Has(e))
    requires (w'.io, I.Returned(true)) == I.AddEvent(w.io, fd, e, None, f, 0, true)
    requires forall h :: h != f ==> (h in w.fibers <==> h in w'.fibers) && (h in w.fibers ==> w'.fibers[h] == w.fibers[h])
    requires f in w'.fibers && w'.fibers[f].Parked? && w'.fibers[f].fd == fd && w'.fibers[f].e == e
    ensures Located(w', g)
  {
    hide Inv, I.Inv, I.AddEvent, I.Holds, InSlots;
    SoundPart(w);
    IoPart(w);
    WaitAdds(w, f, fd, e, true);
    SlotsOnly(w.(io := w'.io), w', g);
    assert Located(w, g);
    if g == f {
      assert I.Handed(I.NewSlot(0, None, f)) == [Waiter(f)];
      I.AddEventMoves(w.io, fd, e, None, f, 0, true, fd, e, Waiter(f));
    } else if g in w.fibers && w.fibers[g].Parked? {
      I.AddEventMoves(w.io, fd, e, None, f, 0, true, w.fibers[g].fd, w.fibers[g].e, Waiter(g));
    }
  }

  /** An event whose waiter is no fiber. */
  lemma CallbackMoves(w: World, fd: nat, e: I.Event, cb: nat, allowed: bool)
    requires Full(w) && Legal(w, AddCallbackEvent(fd, e, cb, allowed))
    ensures Full(Step(w, AddCallbackEvent(fd, e, cb, allowed)))
  {
    hide Inv, I.Inv, I.AddEvent, I.Holds, InSlots;
    var io := I.AddEvent(w.io, fd, e, Some(cb), 0, 0, allowed).0;
    var w' := w.(io := io);
    AddCallbackEventInv(w, fd, e, cb, allowed);
    SoundPart(w);
    IoPart(w);
    IoPart(w');
    I.AddEventInv(w.io, fd, e, Some(cb), 0, 0, allowed);
    Registers(w, io, if allowed then [I.Hand(0, I.CallbackWaiter(cb))] else []);
    forall g: FiberId
      ensures Located(w', g)
    {
      assert Located(w, g);
      if g in w.fibers && w.fibers[g].Parked? {
        I.AddEventMoves(w.io, fd, e, Some(cb), 0, 0, allowed, w.fibers[g].fd, w.fibers[g].e, Waiter(g));
      }
    }
  }

  lemma TimeoutMoves(w: World, allowed: bool)
    requires Full(w) && Legal(w, RunTimeout(allowed))
    ensures Full(Step(w, RunTimeout(allowed)))
  {
    hide Inv, I.Inv, I.CancelEvent, I.CancelAll, Located, WithIo, InQueue;
    var a := w.queue[0].a;
    HeadQueued(w);
    MarkedInv(w, a);
    RunTimeoutInv(w, allowed);
    SameSlots(w, Marked(w, a));
    CancelMoves(Marked(w, a), w.kinds[a].fd, w.kinds[a].e, allowed);
  }

  lemma RefusedMoves(w: World, f: FiberId, fd: nat, e: I.Event, to: Option<nat>, call: CallId, timer: TimerId)
    requires Full(w) && Legal(w, Park(f, fd, e, to, call, timer, false))
    ensures Full(DoPark(w, f, fd, e, to, call, timer, false))
  {
    hide Inv, I.Inv, I.AddEvent, I.Holds, InSlots, Timed;
    var w' := DoPark(w, f, fd, e, to, call, timer, false);
    RefusedInv(w, f, fd, e, to, call, timer);
    ParkIo(w, f, fd, e, to, call, timer, false);
    SoundPart(w);
    IoPart(w);
    WaitAdds(w, f, fd, e, false);
    forall g: FiberId
      ensures Located(w', g)
    {
      assert Located(w, g);
      SlotsOnly(w.(io := w'.io), w', g);
      if g in w.fibers && w.fibers[g].Parked? {
        I.AddEventMoves(w.io, fd, e, None, f, 0, false, w.fibers[g].fd, w.fibers[g].e, Waiter(g));
      }
    }
  }

  lemma ResumeMoves(w: World)
    requires Full(w) && Legal(w, Resume)
    ensures Full(Step(w, Resume))
  {
    hide Inv, Located, T.DoCancel;
    ResumeInv(w);
    ResumeForm(w, w.queue[0].f);
    SameSlots(w, Step(w, Resume));
  }

  lemma FullStep(w: World, a: Action)
    requires Full(w) && Legal(w, a)
    ensures Full(Step(w, a))
  {
    hide Inv, Located, DoPark, DoTimeout, DoResume, DoIdle, WithIo, I.Faithful, T.DoAdd, I.AddEvent, T.Step;
    StepInv(w, a);
    match a
    case RunTimeout(allowed) => TimeoutMoves(w, allowed);
    case Resume => ResumeMoves(w);
    case Park(f, fd, e, to, call, timer, allowed) =>
      if allowed {
        ParkMoves(w, f, fd, e, to, call, timer);
      } else {
        RefusedMoves(w, f, fd, e, to, call, timer);
      }
    case CancelEvent(fd, e, allowed) => CancelMoves(w, fd, e, allowed);
    case CancelAll(fd, allowed) => CancelMoves(w, fd, I.READ, allowed);
    case AddCallbackEvent(fd, e, cb, allowed) => CallbackMoves(w, fd, e, cb, allowed);
    case Idle(probe, batch) => IdleMoves(w, probe, batch);
    case _ => SameSlots(w, Step(w, a));
  }

  // -------------------------------------------------------------------- runs

  ghost predicate LegalRun(w: World, acts: seq<Action>)
    decreases |acts|
  {
    acts != [] ==> Legal(w, acts[0]) && LegalRun(Step(w, acts[0]), acts[1..])
  }

  ghost function Run(w: World, acts: seq<Action>): World
    requires LegalRun(w, acts)
    decreases |acts|
  {
    if acts == [] then w else Run(Step(w, acts[0]), acts[1..])
  }

  lemma LegalFits(w: World, a: Action)
    requires Legal(w, a)
    ensures Fits(w, a)
  {
  }

  lemma {:induction false} RunFull(w: World, acts: seq<Action>)
    requires Full(w) && LegalRun(w, acts)
    ensures Full(Run(w, acts))
    decreases |acts|
  {
    hide Full, Legal, Step, Fits;
    if acts != [] {
      LegalFits(w, acts[0]);
      FullStep(w, acts[0]);
      RunFull(Step(w, acts[0]), acts[1..]);
    }
  }

  lemma StartFull(now: nat)
    ensures Full(Start(now))
  {
    StartInv(now);
    hide Inv, I.Initial;
  }

  // ------------------------------------------------------------ what wakes it

  /** The step is a readiness report, a cancellation or a timeout that takes the
      event of a wait, and the kernel lets it through. */
  ghost predicate Takes(w: World, a: Action, fd: nat, e: I.Event)
    requires Fits(w, a)
  {
    match a
    case Idle(_, batch) => I.Reported(w.io, batch, fd, e)
    case CancelEvent(at, dir, allowed) => allowed && at == fd && dir == e
    case CancelAll(at, allowed) => allowed && at == fd
    case RunTimeout(allowed) =>
      allowed && w.kinds[w.queue[0].a].fd == fd && w.kinds[w.queue[0].a].e == e
    case _ => false
  }

  predicate Resumes(w: World, a: Action, f: FiberId) {
    a.Resume? && w.queue != [] && w.queue[0] == FiberTask(f)
  }

  predicate Suspended(w: World, f: FiberId) {
    f in w.fibers && (w.fibers[f].Parked? || w.fibers[f].Sleeping?)
  }

  /** Only its own resumption ends a wait. */
  lemma StillSuspended(w: World, a: Action, f: FiberId)
    requires Legal(w, a) && Suspended(w, f) && !Resumes(w, a, f)
    ensures Suspended(Step(w, a), f) && Step(w, a).fibers[f] == w.fibers[f]
  {
    hide T.DoAdd, I.AddEvent, T.DoCancel, T.DoListExpiredCb, T.DoGetNextTimer, I.DeliverAll, I.CancelEvent,
      I.CancelAll, I.Faithful, TasksOf, TimerTasks, T.Step;
  }

  lemma SlotHeld(w: World, f: FiberId)
    requires Inv(w) && f in w.fibers && w.fibers[f].Parked?
    requires I.Holds(w.io, w.fibers[f].fd, w.fibers[f].e, Waiter(f))
    ensures InQueue(w, FiberTask(f)) == 0
  {
    hide Inv, InQueue;
    OneToken(w, f);
    I.HeldCounts(w.io.ctxs, w.fibers[f].fd, w.fibers[f].e, Waiter(f));
  }

  /** What an event call does to a waiting fiber is what it does to its waiter. */
  lemma IoWakes(w: World, io: I.State, f: FiberId)
    requires Inv(WithIo(w, io)) && f in w.fibers && w.fibers[f].Parked?
    requires I.Passed(w.io, io, Waiter(f)) || I.Holds(io, w.fibers[f].fd, w.fibers[f].e, Waiter(f))
    ensures var n := InQueue(WithIo(w, io), FiberTask(f));
            if I.Passed(w.io, io, Waiter(f)) then n == 1 else n == 0
  {
    hide Inv, InSlots, InQueue, WithIo, I.Holds, I.Passed;
    IoFrame(w, io);
    IoKept(w, io);
    if I.Passed(w.io, io, Waiter(f)) {
      PassedQueues(w, io, f);
      OneToken(WithIo(w, io), f);
    } else {
      SlotHeld(WithIo(w, io), f);
    }
  }

  lemma NotBoth(w: World, io: I.State, f: FiberId)
    requires Inv(WithIo(w, io)) && f in w.fibers && w.fibers[f].Parked?
    requires I.Holds(io, w.fibers[f].fd, w.fibers[f].e, Waiter(f))
    ensures !I.Passed(w.io, io, Waiter(f))
  {
    hide Inv, InSlots, InQueue, WithIo, I.Holds, I.Passed;
    IoFrame(w, io);
    IoKept(w, io);
    SlotHeld(WithIo(w, io), f);
    if I.Passed(w.io, io, Waiter(f)) {
      PassedQueues(w, io, f);
    }
  }

  lemma InSlot(w: World, f: FiberId)
    requires Full(w) && f in w.fibers && w.fibers[f].Parked? && InQueue(w, FiberTask(f)) == 0
    ensures I.Holds(w.io, w.fibers[f].fd, w.fibers[f].e, Waiter(f))
  {
    hide Inv, InSlots, InQueue, I.Holds;
    OneToken(w, f);
    assert Located(w, f);
  }

  lemma CancelWakes(w: World, f: FiberId, fd: nat, e: I.Event, allowed: bool)
    requires Full(w) && f in w.fibers && w.fibers[f].Parked? && InQueue(w, FiberTask(f)) == 0
    ensures InQueue(WithIo(w, I.CancelEvent(w.io, fd, e, allowed).0), FiberTask(f)) ==
      if allowed && fd == w.fibers[f].fd && e == w.fibers[f].e then 1 else 0
    ensures InQueue(WithIo(w, I.CancelAll(w.io, fd, allowed).0), FiberTask(f)) ==
      if allowed && fd == w.fibers[f].fd then 1 else 0
  {
    hide Inv, I.Inv, I.CancelEvent, I.CancelAll, I.Holds, I.Passed, InQueue, WithIo, Located;
    CancelInv(w, fd, e, allowed);
    IoPart(w);
    InSlot(w, f);
    var p := w.fibers[f];
    var one, all := I.CancelEvent(w.io, fd, e, allowed).0, I.CancelAll(w.io, fd, allowed).0;
    I.CancelEventMoves(w.io, fd, e, allowed, p.fd, p.e, Waiter(f));
    I.CancelAllMoves(w.io, fd, allowed, p.fd, p.e, Waiter(f));
    IoWakes(w, one, f);
    IoWakes(w, all, f);
    if I.Holds(one, p.fd, p.e, Waiter(f)) {
      NotBoth(w, one, f);
    }
    if I.Holds(all, p.fd, p.e, Waiter(f)) {
      NotBoth(w, all, f);
    }
  }

  lemma IdleWakes(w: World, f: FiberId, probe: nat, batch: seq<I.Report>)
    requires Full(w) && f in w.fibers && w.fibers[f].Parked? && InQueue(w, FiberTask(f)) == 0
    requires OnlyUsers(w.queue) && I.Faithful(w.io, batch)
    ensures InQueue(DoIdle(w, probe, batch), FiberTask(f)) ==
      if I.Reported(w.io, batch, w.fibers[f].fd, w.fibers[f].e) then 1 else 0
  {
    hide Inv, I.Inv, I.DeliverAll, I.Faithful, I.Holds, I.Passed, I.Reported, Located, WithIo, DoIdle, Fired, InQueue;
    IdleInv(w, probe, batch);
    IoPart(w);
    InSlot(w, f);
    var p := w.fibers[f];
    I.BatchMoves(w.io, batch, p.fd, p.e, Waiter(f));
    var w1, io := AfterTimers(w, probe), I.DeliverAll(w.io, batch).0;
    IoWakes(w1, io, f);
    if I.Holds(io, p.fd, p.e, Waiter(f)) {
      NotBoth(w1, io, f);
    }
  }

  lemma TimeoutWakes(w: World, f: FiberId, allowed: bool)
    requires Full(w) && f in w.fibers && w.fibers[f].Parked? && InQueue(w, FiberTask(f)) == 0
    requires Legal(w, RunTimeout(allowed))
    ensures InQueue(Step(w, RunTimeout(allowed)), FiberTask(f)) ==
      if Takes(w, RunTimeout(allowed), w.fibers[f].fd, w.fibers[f].e) then 1 else 0
  {
    hide Inv, I.Inv, I.CancelEvent, I.CancelAll, Located, WithIo, InQueue;
    var a := w.queue[0].a;
    HeadQueued(w);
    MarkedInv(w, a);
    RunTimeoutInv(w, allowed);
    SameSlots(w, Marked(w, a));
    PopCounts(w);
    MarkedQueue(w, a);
    CancelWakes(Marked(w, a), f, w.kinds[a].fd, w.kinds[a].e, allowed);
  }

  lemma MarkedQueue(w: World, a: TimerId)
    requires w.queue != [] && a in w.kinds && w.kinds[a].IoTimeout? && w.kinds[a].call in w.calls
    ensures forall t :: InQueue(Marked(w, a), t) == InQueue(Rest(w), t)
  {
  }

  /** A fiber waiting in its slot is queued by exactly the steps that take its
      event: a report, a cancellation or a timeout.  When the kernel refuses the
      call that a timeout makes, the fiber stays where it is. */
  lemma WakesExactly(w: World, a: Action, f: FiberId)
    requires Full(w) && Legal(w, a) && f in w.fibers && w.fibers[f].Parked? && InQueue(w, FiberTask(f)) == 0
    ensures f in Step(w, a).fibers && Step(w, a).fibers[f] == w.fibers[f]
    ensures InQueue(Step(w, a), FiberTask(f)) == if Takes(w, a, w.fibers[f].fd, w.fibers[f].e) then 1 else 0
  {
    hide Inv, I.Inv, I.AddEvent, I.CancelEvent, I.CancelAll, I.DeliverAll, I.Faithful, I.Holds, I.Passed, I.Reported,
      Located, WithIo, DoIdle, DoPark, DoTimeout, DoResume, InQueue, T.DoAdd, T.Step;
    NotAtHead(w, a, f);
    StillSuspended(w, a, f);
    FullStep(w, a);
    match a
    case RunTimeout(allowed) => TimeoutWakes(w, f, allowed);
    case CancelEvent(fd, e, allowed) => CancelWakes(w, f, fd, e, allowed);
    case CancelAll(fd, allowed) => CancelWakes(w, f, fd, I.READ, allowed);
    case Idle(probe, batch) => IdleWakes(w, f, probe, batch);
    case Park(g, fd, e, to, call, timer, allowed) =>
      ParkQueue(w, g, fd, e, to, call, timer, allowed);
      QueueOnly(w, Step(w, a), f);
    case AddCallbackEvent(_, _, _, _) => QueueOnly(w, Step(w, a), f);
    case Resume =>
      ResumeIo(w);
      SlotKept(w, a, f);
    case _ => SlotKept(w, a, f);
  }

  lemma ResumeIo(w: World)
    requires Inv(w) && Legal(w, Resume)
    ensures Step(w, Resume).io == w.io
  {
    hide Inv, T.DoCancel;
    ResumeForm(w, w.queue[0].f);
  }

  lemma NotAtHead(w: World, a: Action, f: FiberId)
    requires InQueue(w, FiberTask(f)) == 0
    ensures !Resumes(w, a, f)
  {
  }

  lemma SlotKept(w: World, a: Action, f: FiberId)
    requires Full(w) && Legal(w, a) && Full(Step(w, a)) && Step(w, a).io == w.io
    requires f in w.fibers && w.fibers[f].Parked? && InQueue(w, FiberTask(f)) == 0
    requires f in Step(w, a).fibers && Step(w, a).fibers[f] == w.fibers[f]
    ensures InQueue(Step(w, a), FiberTask(f)) == 0
  {
    hide Inv, Step, Legal, Fits, InQueue, Located, I.Holds;
    LegalFits(w, a);
    InSlot(w, f);
    SlotHeld(Step(w, a), f);
  }

  lemma QueueOnly(w: World, w': World, f: FiberId)
    requires w'.queue == w.queue
    ensures InQueue(w', FiberTask(f)) == InQueue(w, FiberTask(f))
  {
  }

  // ------------------------------------------------------- how often it wakes

  /** The queue a step finds once the scheduler has taken its task. */
  function Left(w: World, a: Action): seq<Task>
    requires Fits(w, a)
  {
    if a.StartCallback? || a.RunTimeout? || a.RunWake? || a.Resume? then w.queue[1..] else w.queue
  }

  /** What the step puts at the back of the queue. */
  function Appended(w: World, a: Action): seq<Task>
    requires Fits(w, a)
  {
    var left, queue := Left(w, a), Step(w, a).queue;
    if left <= queue then queue[|left|..] else []
  }

  lemma OnlyAppends(w: World, a: Action)
    requires Inv(w) && Legal(w, a)
    ensures Step(w, a).queue == Left(w, a) + Appended(w, a)
  {
    hide Inv, T.DoAdd, I.AddEvent, T.DoCancel, T.DoListExpiredCb, T.DoGetNextTimer, I.DeliverAll, I.CancelEvent,
      I.CancelAll, I.Faithful, TasksOf, TimerTasks, T.Step;
  }

  /** How often a step queues the fiber. */
  function Requeues(w: World, a: Action, f: FiberId): nat
    requires Fits(w, a)
  {
    multiset(Appended(w, a))[FiberTask(f)]
  }

  lemma RequeueCounts(w: World, a: Action, f: FiberId)
    requires Inv(w) && Legal(w, a) && !Resumes(w, a, f)
    ensures InQueue(Step(w, a), FiberTask(f)) == InQueue(w, FiberTask(f)) + Requeues(w, a, f)
  {
    hide Inv, Step, Legal, Appended;
    LegalFits(w, a);
    OnlyAppends(w, a);
    assert multiset(Left(w, a) + Appended(w, a)) == multiset(Left(w, a)) + multiset(Appended(w, a));
    if w.queue != [] {
      PopCounts(w);
    }
  }

  /** The fiber is not resumed on the way. */
  ghost predicate Undisturbed(w: World, acts: seq<Action>, f: FiberId)
    requires LegalRun(w, acts)
    decreases |acts|
  {
    acts != [] ==> !Resumes(w, acts[0], f) && Undisturbed(Step(w, acts[0]), acts[1..], f)
  }

  ghost function TotalRequeues(w: World, acts: seq<Action>, f: FiberId): nat
    requires LegalRun(w, acts)
    decreases |acts|
  {
    if acts == [] then 0 else Requeues(w, acts[0], f) + TotalRequeues(Step(w, acts[0]), acts[1..], f)
  }

  lemma AtMostOnce(w: World, f: FiberId)
    requires Inv(w) && Suspended(w, f)
    ensures InQueue(w, FiberTask(f)) <= 1
  {
    hide Sound, TimeoutsFirst, ParkOk;
    assert FiberOk(w, f);
  }

  /** Until it is resumed a suspended fiber is queued at most once, and waits for
      the same thing. */
  lemma {:induction false} WaitRun(w: World, acts: seq<Action>, f: FiberId)
    requires Inv(w) && LegalRun(w, acts) && Suspended(w, f) && Undisturbed(w, acts, f)
    ensures var end := Run(w, acts);
            Inv(end) && Suspended(end, f) && end.fibers[f] == w.fibers[f] &&
            InQueue(w, FiberTask(f)) + TotalRequeues(w, acts, f) == InQueue(end, FiberTask(f)) <= 1
    decreases |acts|
  {
    hide Inv, Step, Legal, Fits, InQueue, Requeues, Resumes;
    AtMostOnce(w, f);
    if acts != [] {
      LegalFits(w, acts[0]);
      StepInv(w, acts[0]);
      StillSuspended(w, acts[0], f);
      RequeueCounts(w, acts[0], f);
      WaitRun(Step(w, acts[0]), acts[1..], f);
    }
  }

  // ------------------------------------------------------- what it finds then

  /** A resumed fiber stands in no slot and nowhere in the queue, and the callback
      of its timer cannot run any more.  Cancelling the timer succeeds exactly
      when the wait was not timed out; it was timed out only if its timer went off,
      in time by the clock; and the call ends with an error exactly then. */
  lemma ResumeOutcome(w: World)
    requires Inv(w) && Legal(w, Resume)
    ensures var f := w.queue[0].f;
            f in w.fibers &&
            var (p, w') := (w.fibers[f], Step(w, Resume));
            Runs(w', f) && InSlots(w', f) == 0 && InQueue(w', FiberTask(f)) == 0 &&
            (p.Sleeping? ==> p.behind in w.fired && InTime(w.fired[p.behind], p.until)) &&
            (p.Parked? ==>
               p.call in w.calls &&
               (p.timer.Some? ==>
                  (T.DoCancel(w.tm, p.timer.value).1.ok <==> !w.calls[p.call].cancelled) &&
                  Flight(w', p.timer.value) == 0) &&
               (w.calls[p.call].cancelled ==>
                  p.timer.Some? && p.timer.value in w.fired && InTime(w.fired[p.timer.value], p.since + p.to)) &&
               (p.call in w'.calls <==> !w.calls[p.call].cancelled))
  {
    hide Sound, TimeoutsFirst, T.DoCancel, InSlots, InQueue, Alive, T.At, DoResume, Unarmed;
    var f := w.queue[0].f;
    AtHead(w, f);
    ResumeForm(w, f);
    var p := w.fibers[f];
    UnarmedSame(w, TimerOf(p));
    StatusOnly(Unarmed(w, TimerOf(p)), Step(w, Resume).fibers, Step(w, Resume).calls);
    assert FiberOk(w, f);
    if p.Sleeping? && p.behind in w.fired {
      FiredTime(w, p.behind);
    }
    if p.Parked? && p.timer.Some? {
      assert TimerOk(w, p.timer.value);
      CancelSucceeds(w, p.timer.value);
    }
  }

  lemma CancelSucceeds(w: World, a: TimerId)
    requires Sound(w) && a in w.kinds
    ensures T.DoCancel(w.tm, a).1.ok <==> Alive(w.tm, a)
  {
    hide T.Inv, I.Inv, T.DoCancel;
    TmCancel(w.tm, a);
  }

  /** Every wait of do_io: in any state that a run reaches, a fiber parks behind
      an event and perhaps a timer; whatever happens until it is resumed, it was
      queued exactly once, still by this wait, and it was timed out only if its own
      timer went off, in time by the clock.  The bit of its event is set then exactly
      when somebody registered for the event meanwhile and nothing took it after
      that. */
  lemma EveryWait(start: nat, before: seq<Action>, f: FiberId, fd: nat, e: I.Event, to: Option<nat>,
                  call: CallId, timer: TimerId, during: seq<Action>)
    requires LegalRun(Start(start), before)
    requires var w := Run(Start(start), before); Legal(w, Park(f, fd, e, to, call, timer, true))
    requires var w1 := DoPark(Run(Start(start), before), f, fd, e, to, call, timer, true);
             LegalRun(w1, during) && Undisturbed(w1, during, f) && Resumes(Run(w1, during), Resume, f) &&
             Legal(Run(w1, during), Resume)
    ensures var w := Run(Start(start), before);
            var w1 := DoPark(w, f, fd, e, to, call, timer, true);
            var end := Run(w1, during);
            InQueue(w1, FiberTask(f)) == 0 && TotalRequeues(w1, during, f) == 1 &&
            f in end.fibers && end.fibers[f] == Waits(fd, e, to, call, timer, w.now) &&
            call in end.calls &&
            (end.calls[call].cancelled ==>
               to.Some? && timer !in w.fired && timer in end.fired && InTime(end.fired[timer], w.now + to.value)) &&
            (to.Some? ==> (T.DoCancel(end.tm, timer).1.ok <==> !end.calls[call].cancelled)) &&
            (I.HasBit(end.io, fd, e) <==> ArmedLast(w1, during, fd, e))
  {
    hide Inv, Legal, Step, DoPark, Requeues, InQueue, InSlots, T.DoCancel, Located, Flight, I.HasBit, TakenFrom,
      ArmedLast, InTime, Sound;
    StartFull(start);
    RunFull(Start(start), before);
    var w := Run(Start(start), before);
    SoundPart(w);
    ParkNeeds(w, f, fd, e, to, call, timer, true);
    NotFired(w, timer);
    ParkedInv(w, f, fd, e, to, call, timer);
    var w1 := DoPark(w, f, fd, e, to, call, timer, true);
    OneToken(w1, f);
    WaitRun(w1, during, f);
    var end := Run(w1, during);
    ResumeOutcome(end);
    QueuedHead(end, f);
    ParkMoves(w, f, fd, e, to, call, timer);
    QueuedTaken(w1, during, f);
    BitRun(w1, during, fd, e);
  }

  lemma QueuedHead(w: World, f: FiberId)
    requires w.queue != [] && w.queue[0] == FiberTask(f)
    ensures InQueue(w, FiberTask(f)) >= 1
  {
  }

  /** Every sleep: queued exactly once before it is resumed, and only after its own
      timer went off, in time by the clock. */
  lemma EverySleep(start: nat, before: seq<Action>, f: FiberId, ms: nat, timer: TimerId, during: seq<Action>)
    requires LegalRun(Start(start), before)
    requires var w := Run(Start(start), before); Legal(w, Sleep(f, ms, timer))
    requires var w1 := Step(Run(Start(start), before), Sleep(f, ms, timer));
             LegalRun(w1, during) && Undisturbed(w1, during, f) && Resumes(Run(w1, during), Resume, f) &&
             Legal(Run(w1, during), Resume)
    ensures var w := Run(Start(start), before);
            var w1 := Step(w, Sleep(f, ms, timer));
            TotalRequeues(w1, during, f) == 1 && timer !in w.fired && timer in Run(w1, during).fired &&
            InTime(Run(w1, during).fired[timer], T.Deadline(w.now, ms))
  {
    hide Inv, Legal, Step, Requeues, InQueue, InSlots, T.DoCancel, T.DoAdd, Located, Flight, Resumes, InTime;
    StartFull(start);
    RunFull(Start(start), before);
    var w := Run(Start(start), before);
    SoundPart(w);
    SleepForm(w, f, ms, timer);
    NotFired(w, timer);
    FullStep(w, Sleep(f, ms, timer));
    var w1 := Step(w, Sleep(f, ms, timer));
    SleptFields(w, f, ms, timer);
    WaitRun(w1, during, f);
    var end := Run(w1, during);
    HeadIs(end, f);
    QueuedHead(end, f);
    ResumeOutcome(end);
  }

  lemma HeadIs(w: World, f: FiberId)
    requires Resumes(w, Resume, f)
    ensures w.queue != [] && w.queue[0] == FiberTask(f)
  {
  }

  lemma SleptFields(w: World, f: FiberId, ms: nat, timer: TimerId)
    requires Inv(w) && Legal(w, Sleep(f, ms, timer))
    ensures var w1 := Step(w, Sleep(f, ms, timer));
            Suspended(w1, f) && w1.fibers[f] == Sleeping(timer, T.Deadline(w.now, ms)) && InQueue(w1, FiberTask(f)) == 0
  {
    hide Sound, TimerOk, TimeoutsFirst, T.DoAdd;
    assert FiberOk(w, f);
  }

  // ---------------------------------------------------------- the event's bit

  /** The step registers somebody for the event. */
  predicate ArmsEvent(a: Action, fd: nat, e: I.Event) {
    match a
    case Park(_, at, dir, _, _, _, allowed) => allowed && at == fd && dir == e
    case AddCallbackEvent(at, dir, _, allowed) => allowed && at == fd && dir == e
    case _ => false
  }

  /** The bit of an event after a step: set by a registration, cleared by a step
      that takes the event, else unchanged. */
  lemma BitStep(w: World, a: Action, fd: nat, e: I.Event)
    requires Inv(w) && Legal(w, a)
    ensures I.HasBit(Step(w, a).io, fd, e) <==>
              ArmsEvent(a, fd, e) || (I.HasBit(w.io, fd, e) && !Takes(w, a, fd, e))
  {
    hide Inv, I.Inv, I.AddEvent, I.CancelEvent, I.CancelAll, I.DeliverAll, I.Faithful, I.HasBit, I.Reported,
      WithIo, DoIdle, DoPark, DoTimeout, DoResume, InQueue, T.DoAdd, T.Step;
    IoPart(w);
    match a
    case RunTimeout(allowed) => TimeoutBit(w, allowed, fd, e);
    case Resume => ResumeIo(w);
    case Park(f, at, dir, to, call, timer, allowed) => ParkBit(w, f, at, dir, to, call, timer, allowed, fd, e);
    case CancelEvent(at, dir, allowed) =>
      IoKept(w, I.CancelEvent(w.io, at, dir, allowed).0);
      I.CancelEventBit(w.io, at, dir, allowed, fd, e);
    case CancelAll(at, allowed) =>
      IoKept(w, I.CancelAll(w.io, at, allowed).0);
      I.CancelAllBit(w.io, at, allowed, fd, e);
    case AddCallbackEvent(at, dir, cb, allowed) =>
      AddReturns(w, at, dir, cb, allowed);
      I.AddEventBit(w.io, at, dir, Some(cb), 0, 0, allowed, fd, e);
    case Idle(probe, batch) => IdleBit(w, probe, batch, fd, e);
    case _ =>
  }

  lemma ParkBit(w: World, f: FiberId, at: nat, dir: I.Event, to: Option<nat>, call: CallId, timer: TimerId, allowed: bool,
                fd: nat, e: I.Event)
    requires Inv(w) && Legal(w, Park(f, at, dir, to, call, timer, allowed))
    ensures I.HasBit(DoPark(w, f, at, dir, to, call, timer, allowed).io, fd, e) <==>
              I.HasBit(w.io, fd, e) || (allowed && at == fd && dir == e)
  {
    hide Inv, I.Inv, Legal, DoPark, I.AddEvent, I.HasBit;
    IoPart(w);
    ParkIo(w, f, at, dir, to, call, timer, allowed);
    I.AddEventBit(w.io, at, dir, None, f, 0, allowed, fd, e);
  }

  lemma IdleBit(w: World, probe: nat, batch: seq<I.Report>, fd: nat, e: I.Event)
    requires Inv(w) && OnlyUsers(w.queue) && I.Faithful(w.io, batch)
    ensures I.HasBit(DoIdle(w, probe, batch).io, fd, e) <==> I.HasBit(w.io, fd, e) && !I.Reported(w.io, batch, fd, e)
  {
    hide Inv, I.Inv, I.DeliverAll, I.Faithful, I.HasBit, I.Reported, WithIo, DoIdle;
    IoPart(w);
    IdleInv(w, probe, batch);
    IoKept(AfterTimers(w, probe), I.DeliverAll(w.io, batch).0);
    I.BatchBit(w.io, batch, fd, e);
  }

  lemma AddReturns(w: World, fd: nat, e: I.Event, cb: nat, allowed: bool)
    requires Inv(w) && Legal(w, AddCallbackEvent(fd, e, cb, allowed))
    ensures I.AddEvent(w.io, fd, e, Some(cb), 0, 0, allowed).1 == I.Returned(allowed)
  {
    hide Inv, I.Inv, I.AddEvent;
    IoPart(w);
    I.AddEventInv(w.io, fd, e, Some(cb), 0, 0, allowed);
  }

  lemma TimeoutBit(w: World, allowed: bool, fd: nat, e: I.Event)
    requires Inv(w) && Legal(w, RunTimeout(allowed))
    ensures I.HasBit(Step(w, RunTimeout(allowed)).io, fd, e) <==>
              I.HasBit(w.io, fd, e) && !Takes(w, RunTimeout(allowed), fd, e)
  {
    hide Inv, I.Inv, I.CancelEvent, WithIo, I.HasBit;
    IoPart(w);
    RunTimeoutInv(w, allowed);
    var k := w.kinds[w.queue[0].a];
    IoKept(Marked(w, w.queue[0].a), I.CancelEvent(w.io, k.fd, k.e, allowed).0);
    I.CancelEventBit(w.io, k.fd, k.e, allowed, fd, e);
  }

  ghost function StateAt(w: World, acts: seq<Action>, j: nat): World
    requires LegalRun(w, acts) && j <= |acts|
    decreases j
  {
    if j == 0 then w else StateAt(Step(w, acts[0]), acts[1..], j - 1)
  }

  ghost predicate TakesAt(w: World, acts: seq<Action>, j: nat, fd: nat, e: I.Event)
    requires LegalRun(w, acts) && j < |acts|
  {
    Fits(StateAt(w, acts, j), acts[j]) && Takes(StateAt(w, acts, j), acts[j], fd, e)
  }

  /** Some step from the `k`th on takes the event. */
  ghost predicate TakenFrom(w: World, acts: seq<Action>, k: nat, fd: nat, e: I.Event)
    requires LegalRun(w, acts)
  {
    exists j :: k <= j < |acts| && TakesAt(w, acts, j, fd, e)
  }

  /** Some step registers for the event and no later one takes it. */
  ghost predicate ArmedLast(w: World, acts: seq<Action>, fd: nat, e: I.Event)
    requires LegalRun(w, acts)
  {
    exists i :: 0 <= i < |acts| && ArmsEvent(acts[i], fd, e) && !TakenFrom(w, acts, i + 1, fd, e)
  }

  lemma TakenRest(w: World, acts: seq<Action>, k: nat, fd: nat, e: I.Event)
    requires LegalRun(w, acts) && acts != []
    ensures TakenFrom(w, acts, k + 1, fd, e) <==> TakenFrom(Step(w, acts[0]), acts[1..], k, fd, e)
    ensures TakenFrom(w, acts, 0, fd, e) <==> TakesAt(w, acts, 0, fd, e) || TakenFrom(w, acts, 1, fd, e)
  {
    hide Step, Legal, Takes, Fits;
    LegalFits(w, acts[0]);
    var w1, rest := Step(w, acts[0]), acts[1..];
    forall j | 0 < j < |acts|
      ensures TakesAt(w, acts, j, fd, e) == TakesAt(w1, rest, j - 1, fd, e)
    {
      assert rest[j - 1] == acts[j];
    }
    if TakenFrom(w1, rest, k, fd, e) {
      var j :| k <= j < |rest| && TakesAt(w1, rest, j, fd, e);
      assert TakesAt(w, acts, j + 1, fd, e);
    }
  }

  lemma ArmedRest(w: World, acts: seq<Action>, fd: nat, e: I.Event)
    requires LegalRun(w, acts) && acts != []
    ensures ArmedLast(w, acts, fd, e) <==>
              (ArmsEvent(acts[0], fd, e) && !TakenFrom(w, acts, 1, fd, e)) ||
              ArmedLast(Step(w, acts[0]), acts[1..], fd, e)
  {
    hide Step, Legal, TakenFrom, Fits, ArmsEvent;
    LegalFits(w, acts[0]);
    var w1, rest := Step(w, acts[0]), acts[1..];
    forall i | 0 < i < |acts|
      ensures TakenFrom(w, acts, i + 1, fd, e) == TakenFrom(w1, rest, i, fd, e) && rest[i - 1] == acts[i]
    {
      TakenRest(w, acts, i, fd, e);
    }
    if ArmedLast(w, acts, fd, e) {
      var i :| 0 <= i < |acts| && ArmsEvent(acts[i], fd, e) && !TakenFrom(w, acts, i + 1, fd, e);
      if i > 0 {
        assert ArmsEvent(rest[i - 1], fd, e) && !TakenFrom(w1, rest, i - 1 + 1, fd, e);
      }
    }
    if ArmedLast(w1, rest, fd, e) {
      var i :| 0 <= i < |rest| && ArmsEvent(rest[i], fd, e) && !TakenFrom(w1, rest, i + 1, fd, e);
      assert ArmsEvent(acts[i + 1], fd, e) && !TakenFrom(w, acts, i + 1 + 1, fd, e);
    }
  }

  /** At the end of a run the bit of an event is set exactly when it was and no
      step took it, or some step registered for it and no later one took it. */
  lemma {:induction false} BitRun(w: World, acts: seq<Action>, fd: nat, e: I.Event)
    requires Inv(w) && LegalRun(w, acts)
    ensures I.HasBit(Run(w, acts).io, fd, e) <==>
              (I.HasBit(w.io, fd, e) && !TakenFrom(w, acts, 0, fd, e)) || ArmedLast(w, acts, fd, e)
    decreases |acts|
  {
    hide Inv, Step, Legal, Fits, I.HasBit, Takes, TakenFrom, ArmedLast, ArmsEvent;
    if acts == [] {
      NothingHappens(w, fd, e);
    } else {
      LegalFits(w, acts[0]);
      StepInv(w, acts[0]);
      BitStep(w, acts[0], fd, e);
      BitRun(Step(w, acts[0]), acts[1..], fd, e);
      TakenRest(w, acts, 0, fd, e);
      ArmedRest(w, acts, fd, e);
      ArmsTakesNothing(w, acts[0], fd, e);
    }
  }

  lemma ArmsTakesNothing(w: World, a: Action, fd: nat, e: I.Event)
    requires Fits(w, a)
    ensures ArmsEvent(a, fd, e) ==> !Takes(w, a, fd, e)
  {
  }

  lemma NothingHappens(w: World, fd: nat, e: I.Event)
    ensures !TakenFrom(w, [], 0, fd, e) && !ArmedLast(w, [], fd, e)
  {
  }

  /** A clear bit stays clear as long as nobody registers for its event. */
  lemma BitStaysClear(w: World, acts: seq<Action>, fd: nat, e: I.Event)
    requires Inv(w) && LegalRun(w, acts) && !I.HasBit(w.io, fd, e)
    requires forall i :: 0 <= i < |acts| ==> !ArmsEvent(acts[i], fd, e)
    ensures !I.HasBit(Run(w, acts).io, fd, e)
  {
    hide Inv, LegalRun, Run, I.HasBit, TakenFrom, ArmsEvent;
    BitRun(w, acts, fd, e);
  }

  /** A waiting fiber that is queued was queued by a step that took its event. */
  lemma {:induction false} QueuedTaken(w: World, acts: seq<Action>, f: FiberId)
    requires Full(w) && LegalRun(w, acts) && Undisturbed(w, acts, f)
    requires f in w.fibers && w.fibers[f].Parked? && InQueue(w, FiberTask(f)) == 0
    requires InQueue(Run(w, acts), FiberTask(f)) > 0
    ensures TakenFrom(w, acts, 0, w.fibers[f].fd, w.fibers[f].e)
    decreases |acts|
  {
    hide Full, Step, Legal, Fits, InQueue, Takes, TakenFrom, Resumes;
    if acts != [] {
      LegalFits(w, acts[0]);
      FullStep(w, acts[0]);
      WakesExactly(w, acts[0], f);
      TakenRest(w, acts, 0, w.fibers[f].fd, w.fibers[f].e);
      if !Takes(w, acts[0], w.fibers[f].fd, w.fibers[f].e) {
        QueuedTaken(Step(w, acts[0]), acts[1..], f);
      }
    }
  }

  /** A fiber that is queued can find its bit set again: here another one parks
      behind the same event before the first is resumed. */
  lemma BitSetAgain(w: World, f: FiberId, g: FiberId, call: CallId, timer: TimerId)
    requires Full(w) && w.queue == [] && f in w.fibers && w.fibers[f].Parked? && Runs(w, g)
    requires call !in w.calls && timer !in w.kinds
    ensures var p := w.fibers[f];
            var first, second := CancelEvent(p.fd, p.e, true), Park(g, p.fd, p.e, None, call, timer, true);
            Legal(w, first) && Legal(Step(w, first), second) &&
            var end := Step(Step(w, first), second);
            Legal(end, Resume) && Resumes(end, Resume, f) && I.HasBit(end.io, p.fd, p.e)
  {
    hide Inv, I.Inv, I.AddEvent, I.CancelEvent, Located, InQueue, TasksOf, I.Holds;
    var p := w.fibers[f];
    var first, second := CancelEvent(p.fd, p.e, true), Park(g, p.fd, p.e, None, call, timer, true);
    assert SomeoneRuns(w);
    EmptyQueue(w, f);
    InSlot(w, f);
    StepInv(w, first);
    BitStep(w, first, p.fd, p.e);
    var w1 := Step(w, first);
    TakenQueue(w, f);
    StepInv(w1, second);
    BitStep(w1, second, p.fd, p.e);
    SecondParks(w1, g, p.fd, p.e, call, timer);
  }

  lemma EmptyQueue(w: World, f: FiberId)
    requires w.queue == []
    ensures InQueue(w, FiberTask(f)) == 0
  {
  }

  lemma TakenQueue(w: World, f: FiberId)
    requires Full(w) && w.queue == [] && f in w.fibers && w.fibers[f].Parked?
    requires I.Holds(w.io, w.fibers[f].fd, w.fibers[f].e, Waiter(f))
    ensures var w1 := WithIo(w, I.CancelEvent(w.io, w.fibers[f].fd, w.fibers[f].e, true).0);
            w1.queue == [FiberTask(f)] && w1.fibers == w.fibers && w1.kinds == w.kinds && w1.calls == w.calls
  {
    hide Inv, I.Inv, I.CancelEvent, Located, InQueue, I.Handed;
    IoPart(w);
    var io := I.CancelEvent(w.io, w.fibers[f].fd, w.fibers[f].e, true).0;
    I.CancelEventInv(w.io, w.fibers[f].fd, w.fibers[f].e, true);
    assert NewHands(w.io, io) == [Waiter(f)];
    assert [Waiter(f)][..0] == [];
    assert TasksOf([]) == [];
  }

  lemma SecondParks(w: World, g: FiberId, fd: nat, e: I.Event, call: CallId, timer: TimerId)
    requires Inv(w) && Legal(w, Park(g, fd, e, None, call, timer, true))
    ensures var w' := DoPark(w, g, fd, e, None, call, timer, true);
            w'.queue == w.queue && NobodyRuns(w')
  {
    hide Inv, Legal, DoPark, I.AddEvent, InSlots;
    ParkNeeds(w, g, fd, e, None, call, timer, true);
    ParkedInv(w, g, fd, e, None, call, timer);
    OnlyRunner(w, g);
    ParkQueue(w, g, fd, e, None, call, timer, true);
  }

  lemma ParkQueue(w: World, g: FiberId, fd: nat, e: I.Event, to: Option<nat>, call: CallId, timer: TimerId, allowed: bool)
    ensures DoPark(w, g, fd, e, to, call, timer, allowed).queue == w.queue
  {
    hide I.AddEvent, T.DoAdd, T.DoCancel;
  }

  lemma OnlyRunner(w: World, g: FiberId)
    requires Inv(w) && Runs(w, g)
    ensures forall f :: f in w.fibers && f != g ==> w.fibers[f] != Running
  {
    forall f | f in w.fibers && f != g
      ensures !Runs(w, f)
    {
      assert OneRuns(w);
    }
  }

  /** Such a state is reached: two callbacks are scheduled, the first parks and the
      second starts. */
  lemma TwoFibers()
    ensures var acts := [Schedule(0), Schedule(1), StartCallback(0), Park(0, 5, I.READ, None, 0, 0, true), StartCallback(1)];
            LegalRun(Start(0), acts) &&
            var w := Run(Start(0), acts);
            Full(w) && w.queue == [] && 0 in w.fibers && w.fibers[0] == Parked(5, I.READ, None, 0, 0, 0) &&
            Runs(w, 1) && 1 !in w.calls && 1 !in w.kinds
  {
    hide I.AddEvent, Inv, Located, I.Initial;
    var park := Park(0, 5, I.READ, None, 0, 0, true);
    var w := Start(0);
    StartFull(0);
    var w1 := Step(w, Schedule(0));
    var w2 := Step(w1, Schedule(1));
    assert w2.queue == [UserTask(0), UserTask(1)];
    var w3 := Step(w2, StartCallback(0));
    NewManagerAdds(5, I.READ, 0);
    var w4 := Step(w3, park);
    var w5 := Step(w4, StartCallback(1));
    assert LegalRun(w5, []);
    Cons(w4, StartCallback(1), []);
    Cons(w3, park, [StartCallback(1)]);
    Cons(w2, StartCallback(0), [park, StartCallback(1)]);
    Cons(w1, Schedule(1), [StartCallback(0), park, StartCallback(1)]);
    Cons(w, Schedule(0), [Schedule(1), StartCallback(0), park, StartCallback(1)]);
    RunFull(w, [Schedule(0), Schedule(1), StartCallback(0), park, StartCallback(1)]);
  }

  lemma NewManagerAdds(fd: nat, e: I.Event, f: FiberId)
    requires fd < 32
    ensures |I.Initial().ctxs| == 32 && !I.Initial().ctxs[fd].Has(e)
    ensures I.AddEvent(I.Initial(), fd, e, None, f, 0, true).1 == I.Returned(true)
  {
    hide I.AddEvent, I.Inv;
    I.InitialInv();
    I.FreshHasNothing(e);
    I.AddEventInv(I.Initial(), fd, e, None, f, 0, true);
  }

  lemma Cons(w: World, a: Action, acts: seq<Action>)
    requires Legal(w, a) && LegalRun(Step(w, a), acts)
    ensures LegalRun(w, [a] + acts) && Run(w, [a] + acts) == Run(Step(w, a), acts)
  {
    hide Step, Legal;
    assert ([a] + acts)[1..] == acts;
  }
}
