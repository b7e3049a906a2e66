// The event manager as the objects the program changes in place, each call
// against the value-level step it performs.

module IoManagers {
  import opened Common
  import opened IoSpec

  class FdContext {
    const fd: nat
    var events: Mask
    var read: Slot
    var write: Slot

    constructor (fd: nat)
      ensures this.fd == fd && Value() == FRESH
    {
      this.fd := fd;
      events, read, write := NONE, EMPTY, EMPTY;
    }

    function Value(): FdCtx
      reads this
    {
      FdCtx(events, read, write)
    }

    /** Takes the waiter of an event out of its slot; `hand` is what goes to the
        scheduler's queue. */
    method TriggerEvent(e: Event) returns (hand: seq<Hand>)
      modifies this
      ensures Value() == Trigger(old(Value()), e) && hand == Handed(old(Value()).At(e))
    {
      hide Bit, Minus;
      events := Minus(events, Bit(e));
      var slot := Value().At(e);
      hand := Handed(slot);
      if slot.cb.Some? {
        slot := slot.(cb := None);
      } else {
        slot := slot.(fiber := None);
      }
      slot := slot.(scheduler := None);
      SetSlot(e, slot);
    }

    method SetSlot(e: Event, slot: Slot)
      modifies this
      ensures Value() == old(Value()).With(e, slot)
    {
      match e
      case READ => read := slot;
      case WRITE => write := slot;
    }
  }

  class IoManager {
    var fdContexts: seq<FdContext>
    var pendingEventCount: int
    /** The kernel's interest set, and the entries pushed on schedulers' queues. */
    var kernel: map<nat, Mask>
    var scheduled: seq<Hand>
    ghost var added: seq<Hand>
    ghost var deleted: seq<Hand>

    ghost function View(): State
      reads this, fdContexts
    {
      State(Values(fdContexts), kernel, pendingEventCount, added, scheduled, deleted)
    }

    ghost predicate Distinct()
      reads this
    {
      forall i, j :: 0 <= i < j < |fdContexts| ==> fdContexts[i] != fdContexts[j]
    }

    ghost predicate Valid()
      reads this, fdContexts
    {
      Distinct() && Inv(View())
    }

    constructor ()
      ensures Valid() && View() == Initial() && fresh(fdContexts)
    {
      fdContexts, pendingEventCount, kernel, scheduled := [], 0, map[], [];
      added, deleted := [], [];
      new;
      hide Inv, Resized;
      ContextResize(32);
      InitialInv();
      assert Values(fdContexts) == Resized([], 32);
    }

    /** Resizes the table: what is beyond the size is dropped, what is missing is
        made fresh. */
    method ContextResize(size: nat)
      requires Distinct()
      modifies `fdContexts
      ensures Distinct() && |fdContexts| == size
      ensures fdContexts[..Min(size, |old(fdContexts)|)] == old(fdContexts)[..Min(size, |old(fdContexts)|)]
      ensures forall i :: |old(fdContexts)| <= i < size ==> fresh(fdContexts[i])
      ensures Values(fdContexts) == Resized(old(Values(fdContexts)), size)
    {
      if size < |fdContexts| {
        fdContexts := fdContexts[..size];
        assert Values(fdContexts) == old(Values(fdContexts))[..size];
      } else {
        AddContexts(size);
      }
    }

    method AddContexts(size: nat)
      requires Distinct() && |fdContexts| <= size
      modifies `fdContexts
      ensures Distinct() && |fdContexts| == size && old(fdContexts) <= fdContexts
      ensures forall i :: |old(fdContexts)| <= i < size ==> fresh(fdContexts[i])
      ensures Values(fdContexts) == old(Values(fdContexts)) + NewContexts(size - |old(fdContexts)|)
    {
      hide NewContexts;
      ghost var before := fdContexts;
      for i := |fdContexts| to size
        invariant |fdContexts| == i && before <= fdContexts && Distinct()
        invariant forall j :: |before| <= j < i ==> fresh(fdContexts[j]) && fdContexts[j].Value() == FRESH
        invariant forall j :: 0 <= j < |before| ==> fdContexts[j].Value() == old(fdContexts[j].Value())
      {
        var c := new FdContext(i);
        fdContexts := fdContexts + [c];
      }
      assert Values(fdContexts) == old(Values(before)) + NewContexts(size - |before|);
    }

    /** Changing one context changes its value and no other. */
    lemma ValuesAfter(before: seq<FdCtx>, fd: nat)
      requires Distinct() && fd < |fdContexts| == |before|
      requires forall i :: 0 <= i < |before| && i != fd ==> fdContexts[i].Value() == before[i]
      ensures Values(fdContexts) == before[fd := fdContexts[fd].Value()]
    {
    }

    /** epoll_ctl, which may refuse. */
    method EpollCtl(op: CtlOp, fd: nat, mask: Mask, allowed: bool) returns (ok: bool)
      modifies `kernel
      ensures var r := Ctl(old(kernel), op, fd, mask, allowed);
              ok == r.Some? && kernel == if ok then r.value else old(kernel)
      ensures View() == old(View()).(kernel := kernel)
    {
      if !allowed || (op.CtlAdd? <==> fd in kernel) {
        return false;
      }
      kernel := if op.CtlDel? then kernel - {fd} else kernel[fd := mask];
      return true;
    }

    /** triggerEvent on one context, pushing on the queue and counting down. */
    method TriggerOne(fd: nat, e: Event)
      requires Distinct() && fd < |fdContexts|
      modifies `pendingEventCount, `scheduled, fdContexts[fd]
      ensures Distinct() && View() == TriggerAt(old(View()), fd, e)
    {
      hide Trigger, Handed, Values, FdCtx.At;
      ghost var before := Values(fdContexts);
      var hand := fdContexts[fd].TriggerEvent(e);
      scheduled := scheduled + hand;
      pendingEventCount := pendingEventCount - 1;
      ValuesAfter(before, fd);
    }

    method TriggerMaybe(fd: nat, e: Event, wanted: bool)
      requires Distinct() && fd < |fdContexts|
      modifies `pendingEventCount, `scheduled, fdContexts[fd]
      ensures Distinct() && View() == TriggerIf(old(View()), fd, e, wanted)
    {
      hide TriggerAt, Values;
      if wanted {
        TriggerOne(fd, e);
      }
    }

    method RegisterOne(fd: nat, e: Event, slot: Slot)
      requires Distinct() && fd < |fdContexts|
      modifies `pendingEventCount, `added, fdContexts[fd]
      ensures Distinct() && View() == Register(old(View()), fd, e, slot)
    {
      hide Handed, Values, FdCtx.With, Bit, Plus;
      ghost var before := Values(fdContexts);
      pendingEventCount := pendingEventCount + 1;
      fdContexts[fd].events := Plus(fdContexts[fd].events, e);
      fdContexts[fd].SetSlot(e, slot);
      added := added + Handed(slot);
      ValuesAfter(before, fd);
    }

    method DropOne(fd: nat, e: Event)
      requires Distinct() && fd < |fdContexts|
      modifies `pendingEventCount, `deleted, fdContexts[fd]
      ensures Distinct() && View() == Drop(old(View()), fd, e)
    {
      hide Handed, Values, FdCtx.With, FdCtx.At, Bit, Minus;
      ghost var before := Values(fdContexts);
      pendingEventCount := pendingEventCount - 1;
      deleted := deleted + Handed(fdContexts[fd].Value().At(e));
      fdContexts[fd].events := Minus(fdContexts[fd].events, Bit(e));
      fdContexts[fd].SetSlot(e, EMPTY);
      ValuesAfter(before, fd);
    }

    method TriggerSome(fd: nat, ready: Mask)
      requires Distinct() && fd < |fdContexts|
      modifies `pendingEventCount, `scheduled, fdContexts[fd]
      ensures Distinct() && View() == TriggerReady(old(View()), fd, ready)
    {
      hide TriggerIf, Values, Bit, Overlap;
      TriggerMaybe(fd, READ, Overlap(ready, Bit(READ)));
      TriggerMaybe(fd, WRITE, Overlap(ready, Bit(WRITE)));
    }

    /** The three locked sections of addEvent, with nothing in between: the look at
        the size, the resizing, and the registration. */
    method AddEvent(fd: nat, e: Event, cb: Option<nat>, fiber: nat, scheduler: nat, allowed: bool)
      returns (r: Outcome)
      requires Valid()
      modifies this, fdContexts
      ensures old(fdContexts) <= fdContexts
      ensures var (s, out) := IoSpec.AddEvent(old(View()), fd, e, cb, fiber, scheduler, allowed);
              r == out && (r != Aborted ==> Valid() && View() == s)
    {
      hide Inv, Ctl, Handed, Values, AddEventIn, Resized;
      AddEventInv(View(), fd, e, cb, fiber, scheduler, allowed);
      EnlargedInv(View(), fd);
      if fd >= |fdContexts| {
        assert |View().ctxs| >= 32 by { TableLarge(View()); }
        ContextResize(fd * 3 / 2);
      }
      assert Values(fdContexts) == Enlarged(old(View()).ctxs, fd);
      r := RegisterIn(fd, e, NewSlot(scheduler, cb, fiber), allowed);
    }

    /** addEvent once the table is large enough. */
    method RegisterIn(fd: nat, e: Event, slot: Slot, allowed: bool) returns (r: Outcome)
      requires Distinct() && fd < |fdContexts|
      modifies `kernel, `pendingEventCount, `added, fdContexts[fd]
      ensures Distinct()
      ensures var (s, out) := AddEventIn(old(View()), fd, e, slot, allowed);
              r == out && (r != Aborted ==> View() == s)
    {
      hide Ctl, Values, Bit, Plus, Minus, FdCtx.Has, FdCtx.At, Register;
      var c := fdContexts[fd].Value();
      if c.Has(e) {
        return Aborted;
      }
      var op := if c.events != NONE then CtlMod else CtlAdd;
      var ok := EpollCtl(op, fd, Plus(c.events, e), allowed);
      if !ok {
        return Returned(false);
      }
      // The counter and the mask have changed when an occupied slot is noticed.
      if c.At(e) != EMPTY {
        return Aborted;
      }
      RegisterOne(fd, e, slot);
      return Returned(true);
    }

    method DelEvent(fd: nat, e: Event, allowed: bool) returns (r: Outcome)
      requires Valid()
      modifies this, fdContexts
      ensures Valid() && fdContexts == old(fdContexts)
      ensures var (s, out) := IoSpec.DelEvent(old(View()), fd, e, allowed); View() == s && r == out
    {
      hide Inv, IoSpec.DelEvent, Handed;
      DelEventInv(View(), fd, e, allowed);
      if |fdContexts| <= fd {
        OutOfTable(View(), fd, e, allowed);
        return Returned(false);
      }
      r := DelEventIn(fd, e, allowed);
    }

    method DelEventIn(fd: nat, e: Event, allowed: bool) returns (r: Outcome)
      requires Distinct() && fd < |fdContexts|
      modifies `kernel, `pendingEventCount, `deleted, fdContexts[fd]
      ensures Distinct()
      ensures var (s, out) := IoSpec.DelEvent(old(View()), fd, e, allowed); View() == s && r == out
    {
      hide Ctl, Values, Bit, Plus, Minus, FdCtx.Has, FdCtx.At, LeaveOp, Drop;
      var c := fdContexts[fd].Value();
      if !c.Has(e) {
        return Returned(false);
      }
      var left := Minus(c.events, Bit(e));
      var ok := EpollCtl(LeaveOp(left), fd, left, allowed);
      if !ok {
        return Returned(false);
      }
      DropOne(fd, e);
      return Returned(true);
    }

    method CancelEvent(fd: nat, e: Event, allowed: bool) returns (r: Outcome)
      requires Valid()
      modifies this, fdContexts
      ensures Valid() && fdContexts == old(fdContexts)
      ensures var (s, out) := IoSpec.CancelEvent(old(View()), fd, e, allowed); View() == s && r == out
    {
      hide Inv, IoSpec.CancelEvent, Handed;
      CancelEventInv(View(), fd, e, allowed);
      if |fdContexts| <= fd {
        OutOfTable(View(), fd, e, allowed);
        return Returned(false);
      }
      r := CancelEventIn(fd, e, allowed);
    }

    method CancelEventIn(fd: nat, e: Event, allowed: bool) returns (r: Outcome)
      requires Distinct() && fd < |fdContexts|
      modifies `kernel, `pendingEventCount, `scheduled, fdContexts[fd]
      ensures Distinct()
      ensures var (s, out) := IoSpec.CancelEvent(old(View()), fd, e, allowed); View() == s && r == out
    {
      hide Ctl, TriggerAt, Values, Bit, Plus, Minus, FdCtx.Has, LeaveOp;
      var c := fdContexts[fd].Value();
      if !c.Has(e) {
        return Returned(false);
      }
      var left := Minus(c.events, Bit(e));
      var ok := EpollCtl(LeaveOp(left), fd, left, allowed);
      if !ok {
        return Returned(false);
      }
      TriggerOne(fd, e);
      return Returned(true);
    }

    method CancelAll(fd: nat, allowed: bool) returns (r: Outcome)
      requires Valid()
      modifies this, fdContexts
      ensures Valid() && fdContexts == old(fdContexts)
      ensures var (s, out) := IoSpec.CancelAll(old(View()), fd, allowed); View() == s && r == out
    {
      hide Inv, Ctl, Handed, Trigger, TriggerBoth, TriggerIf, Values, Bit, Plus, Minus, FdCtx.Has, FdCtx.At;
      CancelAllInv(View(), fd, allowed);
      if |fdContexts| <= fd {
        return Returned(false);
      }
      var c := fdContexts[fd];
      if c.events == NONE {
        return Returned(false);
      }
      var ok := EpollCtl(CtlDel, fd, NONE, allowed);
      if !ok {
        return Returned(false);
      }
      TriggerMaybe(fd, READ, c.Value().Has(READ));
      TriggerMaybe(fd, WRITE, c.Value().Has(WRITE));
      return if c.events == NONE then Returned(true) else Aborted;
    }

    /** One turn of the loop over what epoll_wait returned. */
    method DeliverOne(fd: nat, ready: Ready, allowed: bool) returns (r: Outcome)
      requires Valid() && fd < |fdContexts|
      modifies this, fdContexts
      ensures fdContexts == old(fdContexts)
      ensures var (s, out) := Deliver(old(View()), fd, ready, allowed);
              r == out && (r != Aborted ==> Valid() && View() == s)
    {
      hide Inv, Deliver, TriggerBoth, ReadyFor, Relevant, OnlyRegistered;
      DeliverInv(View(), fd, ready, allowed);
      r := DeliverIn(fd, ready, allowed);
    }

    method DeliverIn(fd: nat, ready: Ready, allowed: bool) returns (r: Outcome)
      requires Distinct() && fd < |fdContexts|
      modifies `kernel, `pendingEventCount, `scheduled, fdContexts[fd]
      ensures Distinct()
      ensures var (s, out) := Deliver(old(View()), fd, ready, allowed);
              r == out && (r != Aborted ==> View() == s)
    {
      hide Ctl, Values, LeaveOp, RealEvents, TriggerReady, Minus, Overlap, Trigger, TriggerIf, Bit;
      var c := fdContexts[fd].Value();
      var events := RealEvents(c, ready);
      if !Overlap(c.events, events) {
        return Returned(false);
      }
      var left := Minus(c.events, events);
      var ok := EpollCtl(LeaveOp(left), fd, left, allowed);
      if !ok {
        return Returned(false);
      }
      if Overlap(events, !c.events) {
        // triggerEvent asserts that its event is registered.
        return Aborted;
      }
      TriggerSome(fd, events);
      return Returned(true);
    }

    /** The loop of idle over what epoll_wait returned: it goes on until the end of
        the batch or the first failed assertion. */
    method DeliverBatch(batch: seq<Report>) returns (r: Outcome)
      requires Valid() && forall i :: 0 <= i < |batch| ==> batch[i].fd < |fdContexts|
      modifies this, fdContexts
      ensures fdContexts == old(fdContexts)
      ensures var (s, out) := DeliverAll(old(View()), batch);
              r == out && (r != Aborted ==> Valid() && View() == s)
    {
      hide Inv, Deliver, DeliverAll;
      ghost var s0 := View();
      assert batch[0..] == batch;
      r := Returned(true);
      for i := 0 to |batch|
        invariant Valid() && fdContexts == old(fdContexts) && r != Aborted
        invariant DeliverAll(View(), batch[i..]) == DeliverAll(s0, batch)
      {
        BatchStep(View(), batch, i);
        r := DeliverOne(batch[i].fd, batch[i].ready, batch[i].allowed);
        if r == Aborted {
          return;
        }
      }
      BatchEnd(View(), batch);
      r := Returned(true);
    }
  }

  ghost function Values(cs: seq<FdContext>): (r: seq<FdCtx>)
    reads cs
    ensures |r| == |cs|
    ensures forall i :: 0 <= i < |cs| ==> r[i] == cs[i].Value()
  {
    if cs == [] then [] else Values(cs[..|cs| - 1]) + [cs[|cs| - 1].Value()]
  }

  lemma OutOfTable(s: State, fd: nat, e: Event, allowed: bool)
    requires |s.ctxs| <= fd
    ensures DelEvent(s, fd, e, allowed) == (s, Returned(false))
    ensures CancelEvent(s, fd, e, allowed) == (s, Returned(false))
  {
  }

  lemma TableLarge(s: State)
    requires Inv(s)
    ensures |s.ctxs| >= 32
  {
  }

  lemma BatchStep(s: State, batch: seq<Report>, i: nat)
    requires i < |batch|
    ensures var b := batch[i];
            var (s', r) := Deliver(s, b.fd, b.ready, b.allowed);
            if r == Aborted then DeliverAll(s, batch[i..]).1 == Aborted
            else DeliverAll(s, batch[i..]) == DeliverAll(s', batch[i + 1..])
  {
    hide Deliver;
    assert batch[i..][1..] == batch[i + 1..];
  }

  lemma BatchEnd(s: State, batch: seq<Report>)
    ensures DeliverAll(s, batch[|batch|..]) == (s, Returned(true))
  {
  }
}
