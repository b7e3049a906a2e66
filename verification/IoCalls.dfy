// What each event call does, as a table of waiters: who waits for which event of
// which descriptor, who was handed over, and what the kernel watches.

module IoCalls {
  import opened Common
  import opened IoSpec

  /** Who waits for the event: a callback or a fiber, and the scheduler it goes to. */
  function Who(s: State, fd: nat, e: Event): Option<Hand> {
    if fd >= |s.ctxs| then None else WhoIn(s.ctxs[fd], e)
  }

  function WhoIn(c: FdCtx, e: Event): Option<Hand> {
    var (on, slot) := if e == READ then (c.events & 0x1 != 0, c.read) else (c.events & 0x4 != 0, c.write);
    if !on || slot.scheduler.None? then None
    else if slot.cb.Some? then Some(Hand(slot.scheduler.value, CallbackWaiter(slot.cb.value)))
    else if slot.fiber.Some? then Some(Hand(slot.scheduler.value, FiberWaiter(slot.fiber.value)))
    else None
  }

  /** The events the kernel watches for a descriptor. */
  function Watched(s: State, fd: nat, e: Event): bool {
    fd in s.kernel && s.kernel[fd] & (if e == READ then 0x1 else 0x4) != 0
  }

  /** Apart from the events of `fd` in `changed`, everyone waits as before. */
  ghost predicate SameWaiters(s: State, s': State, fd: nat, changed: set<Event>) {
    forall at: nat, dir: Event :: !(at == fd && dir in changed) ==> Who(s', at, dir) == Who(s, at, dir)
  }

  /** The one who waits, if anyone does. */
  function Those(h: Option<Hand>): seq<Hand> {
    if h.Some? then [h.value] else []
  }

  lemma WhoIs(s: State, fd: nat, e: Event)
    requires Inv(s)
    ensures Who(s, fd, e).Some? <==> HasBit(s, fd, e)
    ensures fd < |s.ctxs| && s.ctxs[fd].Has(e) ==> Handed(s.ctxs[fd].At(e)) == Those(Who(s, fd, e))
  {
    hide Registered, BitsSet, KernelAgrees;
    if fd < |s.ctxs| {
      WhoInContext(s.ctxs[fd], e);
    }
  }

  lemma WhoInContext(c: FdCtx, e: Event)
    requires CtxOk(c)
    ensures WhoIn(c, e).Some? <==> c.Has(e)
    ensures c.Has(e) ==> Handed(c.At(e)) == Those(WhoIn(c, e))
  {
  }

  /** The kernel watches exactly what somebody waits for. */
  lemma WatchedIs(s: State, fd: nat, e: Event)
    requires Inv(s)
    ensures Watched(s, fd, e) <==> Who(s, fd, e).Some?
  {
    hide Registered, BitsSet;
    if fd < |s.ctxs| {
      WhoInContext(s.ctxs[fd], e);
      if s.ctxs[fd].events != NONE {
        assert s.kernel[fd] == s.ctxs[fd].events;
      }
    }
  }

  // ---------------------------------------------------------- one new context

  lemma OtherContexts(s: State, s': State, fd: nat, changed: set<Event>)
    requires |s.ctxs| <= |s'.ctxs|
    requires forall at :: 0 <= at < |s.ctxs| && at != fd ==> s'.ctxs[at] == s.ctxs[at]
    requires forall at :: |s.ctxs| <= at < |s'.ctxs| && at != fd ==> s'.ctxs[at] == FRESH
    requires READ in changed || Who(s', fd, READ) == Who(s, fd, READ)
    requires WRITE in changed || Who(s', fd, WRITE) == Who(s, fd, WRITE)
    ensures SameWaiters(s, s', fd, changed)
  {
    FreshNobody();
    forall at: nat, dir: Event | !(at == fd && dir in changed)
      ensures Who(s', at, dir) == Who(s, at, dir)
    {
      if at == fd {
        match dir
        case READ =>
        case WRITE =>
      }
    }
  }

  lemma FreshNobody()
    ensures forall e :: WhoIn(FRESH, e) == None
  {
  }

  /** One slot is filled. */
  lemma FilledContext(c: FdCtx, e: Event, scheduler: nat, cb: Option<nat>, fiber: nat)
    ensures var c' := c.(events := Plus(c.events, e)).With(e, NewSlot(scheduler, cb, fiber));
            && WhoIn(c', e) == Some(Hand(scheduler, if cb.Some? then CallbackWaiter(cb.value) else FiberWaiter(fiber)))
            && WhoIn(c', Other(e)) == WhoIn(c, Other(e))
  {
    hide NewSlot;
    BitNames(c.events, e);
    NewSlotIs(scheduler, cb, fiber);
  }

  lemma NewSlotIs(scheduler: nat, cb: Option<nat>, fiber: nat)
    ensures var slot := NewSlot(scheduler, cb, fiber);
            slot.scheduler == Some(scheduler) && slot.cb == cb && (cb.None? ==> slot.fiber == Some(fiber))
  {
  }

  lemma BitNames(events: Mask, e: Event)
    ensures var (one, other) := if e == READ then (0x1 as Mask, 0x4 as Mask) else (0x4 as Mask, 0x1 as Mask);
            && Plus(events, e) & one != 0 && Plus(events, e) & other == events & other
            && Minus(events, Bit(e)) & one == 0 && Minus(events, Bit(e)) & other == events & other
  {
  }

  /** One slot is emptied. */
  lemma EmptiedContext(c: FdCtx, e: Event, slot: Slot)
    ensures var c' := c.(events := Minus(c.events, Bit(e))).With(e, slot);
            WhoIn(c', e) == None && WhoIn(c', Other(e)) == WhoIn(c, Other(e))
  {
    BitNames(c.events, e);
  }

  // ------------------------------------------------------------------ addEvent

  /** A registration succeeds exactly if nobody waits for the event and the kernel
      lets it; then the callback, or the fiber if there is none, waits for it, and is
      counted once.  A table that is too small is enlarged to half as much again as
      the descriptor, whether it succeeds or not. */
  lemma AddMeans(s: State, fd: nat, e: Event, cb: Option<nat>, fiber: nat, scheduler: nat, allowed: bool)
    requires Inv(s)
    ensures var (s', r) := Step(s, OpAdd(fd, e, cb, fiber, scheduler, allowed));
            var h := Hand(scheduler, if cb.Some? then CallbackWaiter(cb.value) else FiberWaiter(fiber));
            && r == (if Who(s, fd, e).Some? then Aborted else Returned(allowed))
            && SameWaiters(s, s', fd, {e})
            && s'.handed == s.handed && s'.deleted == s.deleted
            && |s'.ctxs| == (if fd < |s.ctxs| then |s.ctxs| else fd * 3 / 2)
            && (r == Returned(true) ==> Who(s', fd, e) == Some(h) && s'.added == s.added + [h] && s'.pending == s.pending + 1)
            && (r != Returned(true) ==>
                  Who(s', fd, e) == Who(s, fd, e) && s'.added == s.added && s'.pending == s.pending && s'.kernel == s.kernel)
  {
    hide Inv, Handed, NewSlot, Ctl, Who, FdCtx.Has, SameWaiters;
    AddEventInv(s, fd, e, cb, fiber, scheduler, allowed);
    WhoIs(s, fd, e);
    EnlargedInv(s, fd);
    EnlargedWaiters(s, fd);
    AddedHand(scheduler, cb, fiber);
    var (s', r) := Step(s, OpAdd(fd, e, cb, fiber, scheduler, allowed));
    var s1 := s.(ctxs := Enlarged(s.ctxs, fd));
    hide Enlarged;
    if r == Returned(true) {
      FilledIn(s1, s', fd, e, scheduler, cb, fiber);
      SameThrough(s, s1, s', fd, e);
    } else {
      SameTable(s1, s', fd, e);
      SameThrough(s, s1, s', fd, e);
    }
  }

  lemma AddedHand(scheduler: nat, cb: Option<nat>, fiber: nat)
    ensures Handed(NewSlot(scheduler, cb, fiber)) ==
            [Hand(scheduler, if cb.Some? then CallbackWaiter(cb.value) else FiberWaiter(fiber))]
  {
  }

  lemma SameTable(s: State, s': State, fd: nat, e: Event)
    requires s'.ctxs == s.ctxs
    ensures SameWaiters(s, s', fd, {e}) && Who(s', fd, e) == Who(s, fd, e)
  {
  }

  lemma SameThrough(s: State, s1: State, s': State, fd: nat, e: Event)
    requires SameWaiters(s, s1, fd, {}) && SameWaiters(s1, s', fd, {e})
    ensures SameWaiters(s, s', fd, {e}) && Who(s1, fd, e) == Who(s, fd, e)
  {
    hide Who;
  }

  lemma EnlargedWaiters(s: State, fd: nat)
    requires Inv(s)
    ensures var s1 := s.(ctxs := Enlarged(s.ctxs, fd));
            SameWaiters(s, s1, fd, {}) && |s1.ctxs| == if fd < |s.ctxs| then |s.ctxs| else fd * 3 / 2
  {
    FreshNobody();
    hide WhoIn;
  }

  lemma FilledIn(s: State, s': State, fd: nat, e: Event, scheduler: nat, cb: Option<nat>, fiber: nat)
    requires fd < |s.ctxs|
    requires s'.ctxs ==
             s.ctxs[fd := s.ctxs[fd].(events := Plus(s.ctxs[fd].events, e)).With(e, NewSlot(scheduler, cb, fiber))]
    ensures SameWaiters(s, s', fd, {e})
    ensures Who(s', fd, e) == Some(Hand(scheduler, if cb.Some? then CallbackWaiter(cb.value) else FiberWaiter(fiber)))
  {
    hide WhoIn, Plus, NewSlot, FdCtx.With;
    FilledContext(s.ctxs[fd], e, scheduler, cb, fiber);
    assert Other(e) == if e == READ then WRITE else READ;
    OtherContexts(s, s', fd, {e});
  }

  // ------------------------------------------------------ taking somebody off

  lemma EmptiedIn(s: State, s': State, fd: nat, e: Event, slot: Slot)
    requires fd < |s.ctxs|
    requires s'.ctxs == s.ctxs[fd := s.ctxs[fd].(events := Minus(s.ctxs[fd].events, Bit(e))).With(e, slot)]
    ensures SameWaiters(s, s', fd, {e}) && Who(s', fd, e) == None
  {
    hide WhoIn, Minus, FdCtx.With;
    EmptiedContext(s.ctxs[fd], e, slot);
    assert Other(e) == if e == READ then WRITE else READ;
    OtherContexts(s, s', fd, {e});
  }

  /** A removal succeeds exactly if somebody waits for the event and the kernel lets
      it; that waiter is dropped, and runs no more. */
  lemma DelMeans(s: State, fd: nat, e: Event, allowed: bool)
    requires Inv(s)
    ensures var (s', r) := Step(s, OpDel(fd, e, allowed));
            && r == Returned(Who(s, fd, e).Some? && allowed)
            && SameWaiters(s, s', fd, {e}) && s'.added == s.added && s'.handed == s.handed && |s'.ctxs| == |s.ctxs|
            && (r == Returned(true) ==>
                  Who(s', fd, e) == None && s'.deleted == s.deleted + Those(Who(s, fd, e)) && s'.pending == s.pending - 1)
            && (r != Returned(true) ==> s' == s)
  {
    hide Inv, Handed, Ctl, Who, FdCtx.Has, SameWaiters, FdCtx.With, FdCtx.At, Minus;
    DelEventInv(s, fd, e, allowed);
    WhoIs(s, fd, e);
    var (s', r) := Step(s, OpDel(fd, e, allowed));
    if r == Returned(true) {
      EmptiedIn(s, s', fd, e, EMPTY);
    } else {
      SameTable(s, s', fd, e);
    }
  }

  /** A cancellation likewise; that waiter is handed to its scheduler. */
  lemma CancelMeans(s: State, fd: nat, e: Event, allowed: bool)
    requires Inv(s)
    ensures var (s', r) := Step(s, OpCancel(fd, e, allowed));
            && r == Returned(Who(s, fd, e).Some? && allowed)
            && SameWaiters(s, s', fd, {e}) && s'.added == s.added && s'.deleted == s.deleted && |s'.ctxs| == |s.ctxs|
            && (r == Returned(true) ==>
                  Who(s', fd, e) == None && s'.handed == s.handed + Those(Who(s, fd, e)) && s'.pending == s.pending - 1)
            && (r != Returned(true) ==> s' == s)
  {
    hide Inv, Handed, Ctl, Who, FdCtx.Has, SameWaiters, FdCtx.With, FdCtx.At, Minus, Drained;
    CancelEventInv(s, fd, e, allowed);
    WhoIs(s, fd, e);
    var (s', r) := Step(s, OpCancel(fd, e, allowed));
    if r == Returned(true) {
      EmptiedIn(s, s', fd, e, Drained(s.ctxs[fd].At(e)));
    } else {
      SameTable(s, s', fd, e);
    }
  }

  // ---------------------------------------------------- both directions at once

  /** Who is handed over when the given directions are triggered: the reader first. */
  lemma TriggeredBoth(c: FdCtx, read: bool, write: bool)
    requires CtxOk(c) && (read ==> c.Has(READ)) && (write ==> c.Has(WRITE))
    ensures var (c2, hands) := TriggerBoth(c, read, write);
            && WhoIn(c2, READ) == (if read then None else WhoIn(c, READ))
            && WhoIn(c2, WRITE) == (if write then None else WhoIn(c, WRITE))
            && hands == (if read then Those(WhoIn(c, READ)) else []) + if write then Those(WhoIn(c, WRITE)) else []
  {
    hide CtxOk, WhoIn, Trigger, Handed, FdCtx.Has;
    WhoInContext(c, READ);
    WhoInContext(c, WRITE);
    var c1 := if read then Trigger(c, READ) else c;
    if read {
      TriggerContext(c, READ);
      TriggeredOne(c, READ);
    }
    WhoInContext(c1, WRITE);
    AtNames(c);
    AtNames(c1);
    if write {
      TriggerContext(c1, WRITE);
      TriggeredOne(c1, WRITE);
    }
  }

  lemma TriggeredOne(c: FdCtx, e: Event)
    ensures WhoIn(Trigger(c, e), e) == None && WhoIn(Trigger(c, e), Other(e)) == WhoIn(c, Other(e))
  {
    EmptiedContext(c, e, Drained(c.At(e)));
  }

  lemma BothIn(s: State, s': State, fd: nat, read: bool, write: bool)
    requires Inv(s) && fd < |s.ctxs| && (read ==> s.ctxs[fd].Has(READ)) && (write ==> s.ctxs[fd].Has(WRITE))
    requires s'.ctxs == s.ctxs[fd := TriggerBoth(s.ctxs[fd], read, write).0]
    ensures SameWaiters(s, s', fd, {READ, WRITE})
    ensures Who(s', fd, READ) == (if read then None else Who(s, fd, READ))
    ensures Who(s', fd, WRITE) == (if write then None else Who(s, fd, WRITE))
    ensures TriggerBoth(s.ctxs[fd], read, write).1 ==
            (if read then Those(Who(s, fd, READ)) else []) + if write then Those(Who(s, fd, WRITE)) else []
  {
    hide Inv, WhoIn, TriggerBoth, CtxOk, FdCtx.Has;
    ContextOk(s, fd);
    TriggeredBoth(s.ctxs[fd], read, write);
    OtherContexts(s, s', fd, {READ, WRITE});
  }

  /** Cancelling all of a descriptor succeeds exactly if somebody waits on it and the
      kernel lets it; both waiters are handed over, the reader first. */
  lemma CancelAllMeans(s: State, fd: nat, allowed: bool)
    requires Inv(s)
    ensures var (s', r) := Step(s, OpCancelAll(fd, allowed));
            && r == Returned((Who(s, fd, READ).Some? || Who(s, fd, WRITE).Some?) && allowed)
            && SameWaiters(s, s', fd, {READ, WRITE}) && s'.added == s.added && s'.deleted == s.deleted && |s'.ctxs| == |s.ctxs|
            && (r == Returned(true) ==>
                  && Who(s', fd, READ) == None && Who(s', fd, WRITE) == None
                  && s'.handed == s.handed + (Those(Who(s, fd, READ)) + Those(Who(s, fd, WRITE))))
            && (r != Returned(true) ==> s' == s)
  {
    hide Inv, Handed, Who, FdCtx.Has, SameWaiters, TriggerBoth, CancelAll;
    CancelAllInv(s, fd, allowed);
    WhoIs(s, fd, READ);
    WhoIs(s, fd, WRITE);
    SomeBits(s, fd);
    var (s', r) := Step(s, OpCancelAll(fd, allowed));
    CancelAllOthers(s, fd, allowed);
    if r == Returned(true) {
      var c := s.ctxs[fd];
      var s2 := s.(ctxs := s.ctxs[fd := TriggerBoth(c, c.Has(READ), c.Has(WRITE)).0]);
      BothIn(s, s2, fd, c.Has(READ), c.Has(WRITE));
      FreshIn(s, s', fd);
    } else {
      SameBoth(s, s', fd);
    }
  }

  lemma SomeBits(s: State, fd: nat)
    requires Inv(s)
    ensures fd < |s.ctxs| ==> (s.ctxs[fd].events != NONE <==> HasBit(s, fd, READ) || HasBit(s, fd, WRITE))
  {
    hide Registered, BitsSet, KernelAgrees;
    if fd < |s.ctxs| {
      EventBits(s.ctxs[fd].events, READ, WRITE);
    }
  }

  lemma FreshIn(s: State, s': State, fd: nat)
    requires fd < |s.ctxs| == |s'.ctxs| && s'.ctxs[fd] == FRESH
    requires forall at :: 0 <= at < |s.ctxs| && at != fd ==> s'.ctxs[at] == s.ctxs[at]
    ensures SameWaiters(s, s', fd, {READ, WRITE}) && Who(s', fd, READ) == None && Who(s', fd, WRITE) == None
  {
    FreshNobody();
    OtherContexts(s, s', fd, {READ, WRITE});
  }

  lemma SameBoth(s: State, s': State, fd: nat)
    requires s' == s
    ensures SameWaiters(s, s', fd, {READ, WRITE})
  {
  }

  /** The waiter's event is ready: as reported, or because the descriptor is broken
      and somebody waits for it. */
  predicate IsReady(s: State, fd: nat, r: Ready, e: Event) {
    (if e == READ then r.input else r.output) || (r.broken && Who(s, fd, e).Some?)
  }

  /** A report on a descriptor: if nobody waits for anything that is ready, nothing
      happens; if the kernel lets the change through and something is ready that
      nobody waits for, an assertion fails; else everyone whose event is ready is
      handed over, the reader first. */
  lemma DeliverMeans(s: State, fd: nat, r: Ready, allowed: bool)
    requires Inv(s) && fd < |s.ctxs|
    ensures var (s', out) := Step(s, OpDeliver(fd, r, allowed));
            var (read, write) := (IsReady(s, fd, r, READ), IsReady(s, fd, r, WRITE));
            var (reader, writer) := (Who(s, fd, READ), Who(s, fd, WRITE));
            var meant := (read && reader.Some?) || (write && writer.Some?);
            && out == (if !meant || !allowed then Returned(false)
                       else if (read && reader.None?) || (write && writer.None?) then Aborted
                       else Returned(true))
            && SameWaiters(s, s', fd, {READ, WRITE}) && s'.added == s.added && s'.deleted == s.deleted
            && (out != Returned(true) ==> s' == s)
            && (out == Returned(true) ==>
                  && Who(s', fd, READ) == (if read then None else reader)
                  && Who(s', fd, WRITE) == (if write then None else writer)
                  && s'.handed == s.handed + ((if read then Those(reader) else []) + if write then Those(writer) else []))
  {
    hide Inv, Handed, Who, FdCtx.Has, SameWaiters, TriggerBoth, Deliver, CtxOk;
    DeliverInv(s, fd, r, allowed);
    WhoIs(s, fd, READ);
    WhoIs(s, fd, WRITE);
    DeliverEnds(s, fd, r, allowed);
    var c := s.ctxs[fd];
    var (s', out) := Step(s, OpDeliver(fd, r, allowed));
    if out == Returned(true) {
      BothIn(s, s', fd, ReadyFor(c, r, READ), ReadyFor(c, r, WRITE));
    } else {
      SameBoth(s, s', fd);
    }
  }

  lemma DeliverEnds(s: State, fd: nat, r: Ready, allowed: bool)
    requires Inv(s) && fd < |s.ctxs|
    ensures var out := Deliver(s, fd, r, allowed).1; out == Aborted || out.Returned?
  {
  }
}
