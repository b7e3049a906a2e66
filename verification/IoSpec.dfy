// Event registration as values: per-descriptor masks and waiter slots, the
// kernel's interest set, the pending counter, and where every waiter goes.

module IoSpec {
  import opened Common

  datatype Event = READ | WRITE

  type Mask = bv8

  const NONE: Mask := 0

  function Bit(e: Event): Mask {
    match e case READ => 0x1 case WRITE => 0x4
  }

  function Plus(events: Mask, e: Event): Mask {
    events | Bit(e)
  }

  /** `events & ~other` */
  function Minus(events: Mask, other: Mask): Mask {
    events & !other
  }

  predicate Overlap(events: Mask, other: Mask) {
    events & other != NONE
  }

  /** Who waits: a callback, or a fiber to resume. */
  datatype Waiter = CallbackWaiter(cb: nat) | FiberWaiter(fiber: nat)

  /** A waiter slot; every part is empty when nobody waits. */
  datatype Slot = Slot(scheduler: Option<nat>, fiber: Option<nat>, cb: Option<nat>)

  const EMPTY := Slot(None, None, None)

  datatype FdCtx = FdCtx(events: Mask, read: Slot, write: Slot) {
    function At(e: Event): Slot {
      match e case READ => read case WRITE => write
    }

    function With(e: Event, slot: Slot): FdCtx {
      match e case READ => this.(read := slot) case WRITE => this.(write := slot)
    }

    predicate Has(e: Event) {
      Overlap(events, Bit(e))
    }
  }

  const FRESH := FdCtx(NONE, EMPTY, EMPTY)

  /** A waiter on its way to a scheduler's queue. */
  datatype Hand = Hand(scheduler: nat, waiter: Waiter)

  /** `added`, `handed` and `deleted` are the waiters registered, passed to their
      schedulers, and dropped so far. */
  datatype State = State(
    ctxs: seq<FdCtx>, kernel: map<nat, Mask>, pending: int,
    added: seq<Hand>, handed: seq<Hand>, deleted: seq<Hand>)

  // ----------------------------------------------------------------- kernel

  datatype CtlOp = CtlAdd | CtlMod | CtlDel

  /** epoll_ctl: adding needs an absent descriptor, the others a present one; it
      can also fail for reasons of its own. */
  function Ctl(kernel: map<nat, Mask>, op: CtlOp, fd: nat, mask: Mask, allowed: bool): Option<map<nat, Mask>> {
    if !allowed || (op.CtlAdd? <==> fd in kernel) then None
    else if op.CtlDel? then Some(kernel - {fd})
    else Some(kernel[fd := mask])
  }

  // --------------------------------------------------------------- triggering

  /** What a slot gives the scheduler's queue: the callback if there is one, else
      the fiber; a slot with neither gives nothing. */
  function Handed(slot: Slot): seq<Hand> {
    var s := if slot.scheduler.Some? then slot.scheduler.value else 0;
    if slot.cb.Some? then [Hand(s, CallbackWaiter(slot.cb.value))]
    else if slot.fiber.Some? then [Hand(s, FiberWaiter(slot.fiber.value))]
    else []
  }

  /** The slot after its waiter was swapped out. */
  function Drained(slot: Slot): Slot {
    if slot.cb.Some? then Slot(None, slot.fiber, None) else Slot(None, None, slot.cb)
  }

  function Trigger(c: FdCtx, e: Event): FdCtx {
    c.(events := Minus(c.events, Bit(e))).With(e, Drained(c.At(e)))
  }

  // ------------------------------------------------------------------- calls

  /** How a call ends: its integer or boolean result, or a failed assertion, which
      ends the program; the state given with it is the one the call began in. */
  datatype Outcome = Returned(ok: bool) | Aborted

  /** `fd * 1.5` truncated. */
  function Enlarged(ctxs: seq<FdCtx>, fd: nat): seq<FdCtx> {
    if fd < |ctxs| then ctxs else Resized(ctxs, fd * 3 / 2)
  }

  function Resized(ctxs: seq<FdCtx>, size: nat): (r: seq<FdCtx>)
    ensures |r| == size
  {
    if size <= |ctxs| then ctxs[..size] else ctxs + NewContexts(size - |ctxs|)
  }

  function NewContexts(n: nat): (r: seq<FdCtx>)
    ensures |r| == n && forall i :: 0 <= i < n ==> r[i] == FRESH
  {
    if n == 0 then [] else NewContexts(n - 1) + [FRESH]
  }

  function NewSlot(scheduler: nat, cb: Option<nat>, fiber: nat): Slot {
    if cb.Some? then Slot(Some(scheduler), None, cb) else Slot(Some(scheduler), Some(fiber), None)
  }

  function AddEvent(s: State, fd: nat, e: Event, cb: Option<nat>, fiber: nat, scheduler: nat, allowed: bool)
    : (State, Outcome)
  {
    AddEventIn(s.(ctxs := Enlarged(s.ctxs, fd)), fd, e, NewSlot(scheduler, cb, fiber), allowed)
  }

  /** addEvent once the table is large enough. */
  function AddEventIn(s: State, fd: nat, e: Event, slot: Slot, allowed: bool): (State, Outcome) {
    if fd >= |s.ctxs| || s.ctxs[fd].Has(e) then (s, Aborted)
    else
      var c := s.ctxs[fd];
      var op := if c.events != NONE then CtlMod else CtlAdd;
      match Ctl(s.kernel, op, fd, Plus(c.events, e), allowed)
      case None => (s, Returned(false))
      case Some(kernel) =>
        if c.At(e) != EMPTY then (s, Aborted)
        else (Register(s.(kernel := kernel), fd, e, slot), Returned(true))
  }

  /** The bookkeeping of a successful addEvent. */
  function Register(s: State, fd: nat, e: Event, slot: Slot): State
    requires fd < |s.ctxs|
  {
    var c := s.ctxs[fd];
    s.(ctxs := s.ctxs[fd := c.(events := Plus(c.events, e)).With(e, slot)],
       pending := s.pending + 1, added := s.added + Handed(slot))
  }

  function LeaveOp(left: Mask): CtlOp {
    if left != NONE then CtlMod else CtlDel
  }

  function DelEvent(s: State, fd: nat, e: Event, allowed: bool): (State, Outcome) {
    if fd >= |s.ctxs| || !s.ctxs[fd].Has(e) then (s, Returned(false))
    else
      var c := s.ctxs[fd];
      var left := Minus(c.events, Bit(e));
      match Ctl(s.kernel, LeaveOp(left), fd, left, allowed)
      case None => (s, Returned(false))
      case Some(kernel) => (Drop(s.(kernel := kernel), fd, e), Returned(true))
  }

  /** The bookkeeping of a successful delEvent. */
  function Drop(s: State, fd: nat, e: Event): State
    requires fd < |s.ctxs|
  {
    var c := s.ctxs[fd];
    s.(ctxs := s.ctxs[fd := c.(events := Minus(c.events, Bit(e))).With(e, EMPTY)],
       pending := s.pending - 1, deleted := s.deleted + Handed(c.At(e)))
  }

  /** triggerEvent on a descriptor's context, and the counter after it. */
  function TriggerAt(s: State, fd: nat, e: Event): State
    requires fd < |s.ctxs|
  {
    s.(ctxs := s.ctxs[fd := Trigger(s.ctxs[fd], e)],
       pending := s.pending - 1, handed := s.handed + Handed(s.ctxs[fd].At(e)))
  }

  function CancelEvent(s: State, fd: nat, e: Event, allowed: bool): (State, Outcome) {
    if fd >= |s.ctxs| || !s.ctxs[fd].Has(e) then (s, Returned(false))
    else
      var left := Minus(s.ctxs[fd].events, Bit(e));
      match Ctl(s.kernel, LeaveOp(left), fd, left, allowed)
      case None => (s, Returned(false))
      case Some(kernel) => (TriggerAt(s.(kernel := kernel), fd, e), Returned(true))
  }

  function TriggerIf(s: State, fd: nat, e: Event, wanted: bool): State
    requires fd < |s.ctxs|
  {
    if wanted then TriggerAt(s, fd, e) else s
  }

  function CancelAll(s: State, fd: nat, allowed: bool): (State, Outcome) {
    if fd >= |s.ctxs| || s.ctxs[fd].events == NONE then (s, Returned(false))
    else
      match Ctl(s.kernel, CtlDel, fd, NONE, allowed)
      case None => (s, Returned(false))
      case Some(kernel) =>
        var s1 := TriggerIf(s.(kernel := kernel), fd, READ, s.ctxs[fd].Has(READ));
        var s2 := TriggerIf(s1, fd, WRITE, s1.ctxs[fd].Has(WRITE));
        (s2, if s2.ctxs[fd].events == NONE then Returned(true) else Aborted)
  }

  /** What epoll_wait reports for one descriptor. */
  datatype Ready = Ready(input: bool, output: bool, broken: bool)

  /** Readiness in terms of events; an error or hangup stands for whatever is
      registered. */
  function RealEvents(c: FdCtx, r: Ready): Mask {
    (if r.input || (r.broken && c.Has(READ)) then Bit(READ) else NONE) |
    (if r.output || (r.broken && c.Has(WRITE)) then Bit(WRITE) else NONE)
  }

  /** One turn of the loop in idle.  Triggering asserts that the bit is set. */
  function Deliver(s: State, fd: nat, r: Ready, allowed: bool): (State, Outcome) {
    if fd >= |s.ctxs| then (s, Aborted)
    else
      var c := s.ctxs[fd];
      var ready := RealEvents(c, r);
      if !Overlap(c.events, ready) then (s, Returned(false))
      else
        var left := Minus(c.events, ready);
        match Ctl(s.kernel, LeaveOp(left), fd, left, allowed)
        case None => (s, Returned(false))
        case Some(kernel) =>
          if Overlap(ready, !c.events) then (s, Aborted)
          else (TriggerReady(s.(kernel := kernel), fd, ready), Returned(true))
  }

  function TriggerReady(s: State, fd: nat, ready: Mask): State
    requires fd < |s.ctxs|
  {
    TriggerIf(TriggerIf(s, fd, READ, Overlap(ready, Bit(READ))), fd, WRITE, Overlap(ready, Bit(WRITE)))
  }

  // --------------------------------------------------------------- agreement

  /** A slot with a scheduler and exactly one of callback and fiber. */
  predicate Waiting(slot: Slot) {
    slot.scheduler.Some? && (slot.cb.Some? <==> slot.fiber.None?)
  }

  predicate SlotOk(on: bool, slot: Slot) {
    if on then Waiting(slot) else slot == EMPTY
  }

  /** The bit of an event is set exactly while its slot holds a waiter; otherwise
      the slot is completely empty. */
  predicate CtxOk(c: FdCtx) {
    && c.events & !(Bit(READ) | Bit(WRITE)) == NONE
    && SlotOk(c.Has(READ), c.read) && SlotOk(c.Has(WRITE), c.write)
  }

  /** The waiters in the slots of a context. */
  function Bag(c: FdCtx): multiset<Hand> {
    multiset(Handed(c.read)) + multiset(Handed(c.write))
  }

  function Registered(ctxs: seq<FdCtx>): multiset<Hand> {
    if ctxs == [] then multiset{} else Registered(ctxs[..|ctxs| - 1]) + Bag(ctxs[|ctxs| - 1])
  }

  function BitCount(c: FdCtx): nat {
    (if c.Has(READ) then 1 else 0) + (if c.Has(WRITE) then 1 else 0)
  }

  /** The number of event bits set. */
  function BitsSet(ctxs: seq<FdCtx>): nat {
    if ctxs == [] then 0 else BitsSet(ctxs[..|ctxs| - 1]) + BitCount(ctxs[|ctxs| - 1])
  }

  /** The kernel watches exactly the descriptors with events, for exactly those. */
  ghost predicate KernelAgrees(ctxs: seq<FdCtx>, kernel: map<nat, Mask>) {
    && (forall fd :: fd in kernel ==> fd < |ctxs|)
    && (forall fd :: 0 <= fd < |ctxs| ==>
          (fd in kernel <==> ctxs[fd].events != NONE) && (fd in kernel ==> kernel[fd] == ctxs[fd].events))
  }

  /** Every waiter ever added is registered, handed over or deleted. */
  ghost predicate Conserved(s: State) {
    multiset(s.added) == Registered(s.ctxs) + multiset(s.handed) + multiset(s.deleted)
  }

  ghost predicate Inv(s: State) {
    && |s.ctxs| >= 32
    && (forall fd :: 0 <= fd < |s.ctxs| ==> CtxOk(s.ctxs[fd]))
    && KernelAgrees(s.ctxs, s.kernel)
    && s.pending == BitsSet(s.ctxs)
    && Conserved(s)
  }

  /** What the constructor leaves: 32 fresh contexts. */
  function Initial(): State {
    State(Resized([], 32), map[], 0, [], [], [])
  }

  // ------------------------------------------------------- one context at a time

  lemma EventBits(events: Mask, e: Event, other: Event)
    requires e != other
    ensures (events | Bit(e)) & Bit(e) != NONE && (events | Bit(e)) & Bit(other) == events & Bit(other)
    ensures (events & !Bit(e)) & Bit(e) == NONE && (events & !Bit(e)) & Bit(other) == events & Bit(other)
    ensures events & !(Bit(READ) | Bit(WRITE)) == NONE ==>
      (events | Bit(e)) & !(Bit(READ) | Bit(WRITE)) == NONE &&
      (events & !Bit(e)) & !(Bit(READ) | Bit(WRITE)) == NONE &&
      (events == NONE <==> events & Bit(e) == NONE && events & Bit(other) == NONE)
  {
  }

  function Other(e: Event): Event {
    match e case READ => WRITE case WRITE => READ
  }

  /** Triggering a registered event empties its slot into the queue: one waiter,
      once. */
  lemma TriggerContext(c: FdCtx, e: Event)
    requires CtxOk(c) && c.Has(e)
    ensures CtxOk(Trigger(c, e)) && !Trigger(c, e).Has(e)
    ensures Trigger(c, e).Has(Other(e)) == c.Has(Other(e)) && Trigger(c, e).At(Other(e)) == c.At(Other(e))
    ensures |Handed(c.At(e))| == 1
    ensures Bag(c) == Bag(Trigger(c, e)) + multiset(Handed(c.At(e)))
    ensures BitCount(c) == BitCount(Trigger(c, e)) + 1
  {
    EventBits(c.events, e, Other(e));
  }

  /** The context after both directions were tried, and the waiters handed over. */
  function TriggerBoth(c: FdCtx, read: bool, write: bool): (FdCtx, seq<Hand>) {
    var (c1, h1) := if read then (Trigger(c, READ), Handed(c.read)) else (c, []);
    if write then (Trigger(c1, WRITE), h1 + Handed(c1.write)) else (c1, h1)
  }

  lemma TriggerBothContext(c: FdCtx, read: bool, write: bool)
    requires CtxOk(c) && (read ==> c.Has(READ)) && (write ==> c.Has(WRITE))
    ensures var (c2, hands) := TriggerBoth(c, read, write);
            CtxOk(c2) && Bag(c) == Bag(c2) + multiset(hands) && BitCount(c) == BitCount(c2) + |hands| &&
            c2.Has(READ) == (c.Has(READ) && !read) && c2.Has(WRITE) == (c.Has(WRITE) && !write)
  {
    hide CtxOk, Bag, BitCount, Trigger, Handed, FdCtx.Has;
    if read {
      TriggerContext(c, READ);
    }
    var c1 := if read then Trigger(c, READ) else c;
    if write {
      TriggerContext(c1, WRITE);
    }
  }

  /** The two conditional triggers of a state are one update of the context. */
  lemma TriggerTwice(s: State, fd: nat, read: bool, write: bool)
    requires fd < |s.ctxs|
    ensures var (c2, hands) := TriggerBoth(s.ctxs[fd], read, write);
            var s1 := TriggerIf(s, fd, READ, read);
            TriggerIf(s1, fd, WRITE, write) ==
              s.(ctxs := s.ctxs[fd := c2],
                 pending := s.pending - (if read then 1 else 0) - (if write then 1 else 0),
                 handed := s.handed + hands)
  {
    hide Trigger, Handed;
    assert s.ctxs[fd := s.ctxs[fd]] == s.ctxs;
    if read {
      var s1 := TriggerAt(s, fd, READ);
      var c1 := Trigger(s.ctxs[fd], READ);
      assert s1.ctxs[fd] == c1 && s1.ctxs[fd := c1] == s1.ctxs;
      if write {
        assert s.ctxs[fd := c1][fd := Trigger(c1, WRITE)] == s.ctxs[fd := Trigger(c1, WRITE)];
        ConcatAssociates(s.handed, Handed(s.ctxs[fd].read), Handed(c1.write));
      }
    } else {
      assert s.handed + [] == s.handed;
    }
  }

  // ----------------------------------------------------------- whole states

  lemma {:induction false} RegisteredUpdate(ctxs: seq<FdCtx>, fd: nat, c: FdCtx)
    requires fd < |ctxs|
    ensures Registered(ctxs[fd := c]) + Bag(ctxs[fd]) == Registered(ctxs) + Bag(c)
    ensures BitsSet(ctxs[fd := c]) + BitCount(ctxs[fd]) == BitsSet(ctxs) + BitCount(c)
  {
    hide Bag, BitCount;
    var init := ctxs[..|ctxs| - 1];
    var after := ctxs[fd := c];
    if fd < |ctxs| - 1 {
      RegisteredUpdate(init, fd, c);
      assert after[..|ctxs| - 1] == init[fd := c];
      var last := Bag(ctxs[|ctxs| - 1]);
      assert Registered(init[fd := c]) + last + Bag(ctxs[fd]) == Registered(init[fd := c]) + Bag(ctxs[fd]) + last;
    } else {
      assert after[..|ctxs| - 1] == init;
    }
  }

  lemma {:induction false} RegisteredGrows(ctxs: seq<FdCtx>, n: nat)
    ensures Registered(ctxs + NewContexts(n)) == Registered(ctxs)
    ensures BitsSet(ctxs + NewContexts(n)) == BitsSet(ctxs)
  {
    if n == 0 {
      assert ctxs + [] == ctxs;
    } else {
      RegisteredGrows(ctxs, n - 1);
      ConcatAssociates(ctxs, NewContexts(n - 1), [FRESH]);
      RegisteredSnoc(ctxs + NewContexts(n - 1), FRESH);
    }
  }

  lemma RegisteredSnoc(ctxs: seq<FdCtx>, c: FdCtx)
    ensures Registered(ctxs + [c]) == Registered(ctxs) + Bag(c)
    ensures BitsSet(ctxs + [c]) == BitsSet(ctxs) + BitCount(c)
    ensures Bag(FRESH) == multiset{} && BitCount(FRESH) == 0
  {
    assert (ctxs + [c])[..|ctxs + [c]| - 1] == ctxs;
  }

  /** Each registered bit stands for one waiter. */
  lemma {:induction false} RegisteredSize(ctxs: seq<FdCtx>)
    requires forall fd :: 0 <= fd < |ctxs| ==> CtxOk(ctxs[fd])
    ensures |Registered(ctxs)| == BitsSet(ctxs)
  {
    if ctxs != [] {
      RegisteredSize(ctxs[..|ctxs| - 1]);
      var c := ctxs[|ctxs| - 1];
      assert CtxOk(c);
    }
  }

  function KernelAfter(kernel: map<nat, Mask>, fd: nat, mask: Mask): map<nat, Mask> {
    if mask == NONE then kernel - {fd} else kernel[fd := mask]
  }

  lemma KernelUpdate(ctxs: seq<FdCtx>, kernel: map<nat, Mask>, fd: nat, c: FdCtx)
    requires KernelAgrees(ctxs, kernel) && fd < |ctxs|
    ensures KernelAgrees(ctxs[fd := c], KernelAfter(kernel, fd, c.events))
  {
  }

  /** Replacing one context keeps the invariant when the waiters balance. */
  lemma Replaced(s: State, fd: nat, c: FdCtx, added: seq<Hand>, handed: seq<Hand>, deleted: seq<Hand>)
    requires Inv(s) && fd < |s.ctxs| && CtxOk(c)
    requires Bag(s.ctxs[fd]) + multiset(added) == Bag(c) + multiset(handed) + multiset(deleted)
    ensures Inv(s.(ctxs := s.ctxs[fd := c], kernel := KernelAfter(s.kernel, fd, c.events),
                   pending := s.pending + BitCount(c) - BitCount(s.ctxs[fd]),
                   added := s.added + added, handed := s.handed + handed, deleted := s.deleted + deleted))
  {
    hide Bag, BitCount, CtxOk, Registered, BitsSet;
    hide KernelAgrees, KernelAfter;
    RegisteredUpdate(s.ctxs, fd, c);
    KernelUpdate(s.ctxs, s.kernel, fd, c);
    Balance(Registered(s.ctxs), Registered(s.ctxs[fd := c]), Bag(s.ctxs[fd]), Bag(c),
            s.added, s.handed, s.deleted, added, handed, deleted);
  }

  lemma ReplacedAdd(s: State, fd: nat, c: FdCtx, added: seq<Hand>)
    requires Inv(s) && fd < |s.ctxs| && CtxOk(c) && Bag(c) == Bag(s.ctxs[fd]) + multiset(added)
    ensures Inv(s.(ctxs := s.ctxs[fd := c], kernel := KernelAfter(s.kernel, fd, c.events),
                   pending := s.pending + BitCount(c) - BitCount(s.ctxs[fd]), added := s.added + added))
  {
    hide Inv, CtxOk, Bag, BitCount, KernelAfter;
    Replaced(s, fd, c, added, [], []);
    assert s.handed + [] == s.handed && s.deleted + [] == s.deleted;
  }

  lemma ReplacedHand(s: State, fd: nat, c: FdCtx, handed: seq<Hand>)
    requires Inv(s) && fd < |s.ctxs| && CtxOk(c) && Bag(s.ctxs[fd]) == Bag(c) + multiset(handed)
    ensures Inv(s.(ctxs := s.ctxs[fd := c], kernel := KernelAfter(s.kernel, fd, c.events),
                   pending := s.pending + BitCount(c) - BitCount(s.ctxs[fd]), handed := s.handed + handed))
  {
    hide Inv, CtxOk, Bag, BitCount, KernelAfter;
    Replaced(s, fd, c, [], handed, []);
    assert s.added + [] == s.added && s.deleted + [] == s.deleted;
  }

  lemma ReplacedDelete(s: State, fd: nat, c: FdCtx, deleted: seq<Hand>)
    requires Inv(s) && fd < |s.ctxs| && CtxOk(c) && Bag(s.ctxs[fd]) == Bag(c) + multiset(deleted)
    ensures Inv(s.(ctxs := s.ctxs[fd := c], kernel := KernelAfter(s.kernel, fd, c.events),
                   pending := s.pending + BitCount(c) - BitCount(s.ctxs[fd]), deleted := s.deleted + deleted))
  {
    hide Inv, CtxOk, Bag, BitCount, KernelAfter;
    Replaced(s, fd, c, [], [], deleted);
    assert s.added + [] == s.added && s.handed + [] == s.handed;
  }

  lemma Balance(all: multiset<Hand>, all': multiset<Hand>, was: multiset<Hand>, now: multiset<Hand>,
                a: seq<Hand>, h: seq<Hand>, d: seq<Hand>, a': seq<Hand>, h': seq<Hand>, d': seq<Hand>)
    requires all' + was == all + now
    requires multiset(a) == all + multiset(h) + multiset(d)
    requires was + multiset(a') == now + multiset(h') + multiset(d')
    ensures multiset(a + a') == all' + multiset(h + h') + multiset(d + d')
  {
    forall x: Hand
      ensures multiset(a + a')[x] == all'[x] + multiset(h + h')[x] + multiset(d + d')[x]
    {
      assert (all' + was)[x] == (all + now)[x];
      assert (was + multiset(a'))[x] == (now + multiset(h') + multiset(d'))[x];
    }
  }

  lemma EnlargedInv(s: State, fd: nat)
    requires Inv(s)
    ensures Inv(s.(ctxs := Enlarged(s.ctxs, fd))) && fd < |Enlarged(s.ctxs, fd)|
    ensures fd < |s.ctxs| ==> Enlarged(s.ctxs, fd) == s.ctxs
    ensures fd >= |s.ctxs| ==> Enlarged(s.ctxs, fd)[fd] == FRESH
  {
    hide Registered, BitsSet;
    if fd >= |s.ctxs| {
      RegisteredGrows(s.ctxs, fd * 3 / 2 - |s.ctxs|);
      assert CtxOk(FRESH);
      hide CtxOk;
    }
  }

  /** The operation chosen from the remaining mask is always one the kernel
      accepts. */
  lemma CtlLegal(s: State, fd: nat, mask: Mask)
    requires Inv(s) && fd < |s.ctxs|
    ensures s.ctxs[fd].events == NONE && mask != NONE ==>
      Ctl(s.kernel, CtlAdd, fd, mask, true) == Some(KernelAfter(s.kernel, fd, mask))
    ensures s.ctxs[fd].events != NONE ==>
      Ctl(s.kernel, LeaveOp(mask), fd, mask, true) == Some(KernelAfter(s.kernel, fd, mask))
  {
  }

  lemma CtlMay(kernel: map<nat, Mask>, op: CtlOp, fd: nat, mask: Mask, allowed: bool)
    ensures Ctl(kernel, op, fd, mask, allowed) == if allowed then Ctl(kernel, op, fd, mask, true) else None
  {
  }

  // ------------------------------------------------------------- each call

  lemma NewSlotWaits(scheduler: nat, cb: Option<nat>, fiber: nat)
    ensures Waiting(NewSlot(scheduler, cb, fiber))
  {
  }

  lemma NewSlotOk(c: FdCtx, e: Event, slot: Slot)
    requires CtxOk(c) && !c.Has(e) && Waiting(slot)
    ensures var c' := c.(events := c.events | Bit(e)).With(e, slot);
            CtxOk(c') && BitCount(c') == BitCount(c) + 1 && c.At(e) == EMPTY && c'.events != NONE &&
            Bag(c') == Bag(c) + multiset(Handed(slot))
  {
    EventBits(c.events, e, Other(e));
  }

  lemma AddEventInInv(s: State, fd: nat, e: Event, slot: Slot, allowed: bool)
    requires Inv(s) && fd < |s.ctxs| && Waiting(slot)
    ensures var (s', r) := AddEventIn(s, fd, e, slot, allowed);
            Inv(s') && r == (if s.ctxs[fd].Has(e) then Aborted else Returned(allowed)) &&
            s'.handed == s.handed && s'.deleted == s.deleted &&
            s'.added == s.added + if r == Returned(true) then Handed(slot) else []
  {
    hide Inv, CtxOk, Bag, BitCount, Handed, KernelAfter, Ctl, FdCtx.With, FdCtx.At, FdCtx.Has, Waiting;
    ContextOk(s, fd);
    var c := s.ctxs[fd];
    if !c.Has(e) {
      NewSlotOk(c, e, slot);
      var mask := c.events | Bit(e);
      var c' := c.(events := mask).With(e, slot);
      WithKeepsEvents(c.(events := mask), e, slot);
      CtlLegal(s, fd, mask);
      CtlMay(s.kernel, if c.events != NONE then CtlMod else CtlAdd, fd, mask, allowed);
      ReplacedAdd(s, fd, c', Handed(slot));
    }
  }

  lemma WithKeepsEvents(c: FdCtx, e: Event, slot: Slot)
    ensures c.With(e, slot).events == c.events
  {
  }

  /** addEvent aborts exactly when the event is registered already; otherwise it
      succeeds exactly when the kernel lets it. */
  lemma AddEventInv(s: State, fd: nat, e: Event, cb: Option<nat>, fiber: nat, scheduler: nat, allowed: bool)
    requires Inv(s)
    ensures var (s', r) := AddEvent(s, fd, e, cb, fiber, scheduler, allowed);
            Inv(s') &&
            r == (if fd < |s.ctxs| && s.ctxs[fd].Has(e) then Aborted else Returned(allowed)) &&
            s'.handed == s.handed && s'.deleted == s.deleted &&
            s'.added == s.added + if r == Returned(true) then Handed(NewSlot(scheduler, cb, fiber)) else []
  {
    hide AddEventIn, Inv, Enlarged, Handed, NewSlot, Waiting, FdCtx.Has;
    EnlargedInv(s, fd);
    NewSlotWaits(scheduler, cb, fiber);
    FreshHasNothing(e);
    AddEventInInv(s.(ctxs := Enlarged(s.ctxs, fd)), fd, e, NewSlot(scheduler, cb, fiber), allowed);
  }

  lemma FreshHasNothing(e: Event)
    ensures !FRESH.Has(e)
  {
  }

  lemma ContextOk(s: State, fd: nat)
    requires Inv(s) && fd < |s.ctxs|
    ensures CtxOk(s.ctxs[fd])
  {
  }

  lemma DropSlotOk(c: FdCtx, e: Event)
    requires CtxOk(c) && c.Has(e)
    ensures var c' := c.(events := c.events & !Bit(e)).With(e, EMPTY);
            CtxOk(c') && BitCount(c') == BitCount(c) - 1 && c' == Trigger(c, e) &&
            Bag(c) == Bag(c') + multiset(Handed(c.At(e)))
  {
    TriggerContext(c, e);
  }

  lemma DelEventInv(s: State, fd: nat, e: Event, allowed: bool)
    requires Inv(s)
    ensures var (s', r) := DelEvent(s, fd, e, allowed);
            Inv(s') && r == Returned(fd < |s.ctxs| && s.ctxs[fd].Has(e) && allowed) &&
            s'.added == s.added && s'.handed == s.handed &&
            s'.deleted == s.deleted + if r == Returned(true) then Handed(s.ctxs[fd].At(e)) else []
  {
    hide Inv, CtxOk, Bag, BitCount, Handed, KernelAfter, Ctl, Trigger;
    if fd < |s.ctxs| && s.ctxs[fd].Has(e) {
      ContextOk(s, fd);
      var c := s.ctxs[fd];
      DropSlotOk(c, e);
      var c' := c.(events := c.events & !Bit(e)).With(e, EMPTY);
      CtlLegal(s, fd, c'.events);
      CtlMay(s.kernel, LeaveOp(c'.events), fd, c'.events, allowed);
      ReplacedDelete(s, fd, c', Handed(c.At(e)));
    }
  }

  lemma CancelEventInv(s: State, fd: nat, e: Event, allowed: bool)
    requires Inv(s)
    ensures var (s', r) := CancelEvent(s, fd, e, allowed);
            Inv(s') && r == Returned(fd < |s.ctxs| && s.ctxs[fd].Has(e) && allowed) &&
            s'.added == s.added && s'.deleted == s.deleted &&
            s'.handed == s.handed + if r == Returned(true) then Handed(s.ctxs[fd].At(e)) else []
  {
    hide Inv, CtxOk, Bag, BitCount, Handed, KernelAfter, Ctl;
    if fd < |s.ctxs| && s.ctxs[fd].Has(e) {
      ContextOk(s, fd);
      var c := s.ctxs[fd];
      TriggerContext(c, e);
      var c' := Trigger(c, e);
      assert c'.events == c.events & !Bit(e);
      hide Trigger;
      CtlLegal(s, fd, c'.events);
      CtlMay(s.kernel, LeaveOp(c'.events), fd, c'.events, allowed);
      ReplacedHand(s, fd, c', Handed(c.At(e)));
    }
  }

  lemma CancelAllInv(s: State, fd: nat, allowed: bool)
    requires Inv(s)
    ensures var (s', r) := CancelAll(s, fd, allowed);
            Inv(s') && r == Returned(fd < |s.ctxs| && s.ctxs[fd].events != NONE && allowed) &&
            s'.added == s.added && s'.deleted == s.deleted &&
            (r == Returned(true) ==>
               s'.ctxs[fd] == FRESH &&
               s'.handed == s.handed + TriggerBoth(s.ctxs[fd], s.ctxs[fd].Has(READ), s.ctxs[fd].Has(WRITE)).1) &&
            (r != Returned(true) ==> s' == s)
  {
    hide Inv, Bag, BitCount, Handed, KernelAfter, Ctl, TriggerBoth, TriggerIf;
    if fd < |s.ctxs| && s.ctxs[fd].events != NONE {
      ContextOk(s, fd);
      var c := s.ctxs[fd];
      CtlLegal(s, fd, NONE);
      CtlMay(s.kernel, CtlDel, fd, NONE, allowed);
      if allowed {
        var k := s.(kernel := KernelAfter(s.kernel, fd, NONE));
        AllTriggered(k, fd);
        TriggerTwice(k, fd, c.Has(READ), c.Has(WRITE));
        TriggerBothContext(c, c.Has(READ), c.Has(WRITE));
        var (c2, hands) := TriggerBoth(c, c.Has(READ), c.Has(WRITE));
        NothingLeft(c2);
        ReplacedHand(s, fd, c2, hands);
        PendingBoth(c, c.Has(READ), c.Has(WRITE));
      }
    }
  }

  /** Triggering the read side leaves the write bit alone. */
  lemma AllTriggered(s: State, fd: nat)
    requires fd < |s.ctxs| && CtxOk(s.ctxs[fd])
    ensures TriggerIf(s, fd, READ, s.ctxs[fd].Has(READ)).ctxs[fd].Has(WRITE) == s.ctxs[fd].Has(WRITE)
  {
    EventBits(s.ctxs[fd].events, READ, WRITE);
  }

  lemma NothingLeft(c: FdCtx)
    requires CtxOk(c) && !c.Has(READ) && !c.Has(WRITE)
    ensures c == FRESH
  {
    EventBits(c.events, READ, WRITE);
  }

  lemma PendingBoth(c: FdCtx, read: bool, write: bool)
    requires CtxOk(c) && (read ==> c.Has(READ)) && (write ==> c.Has(WRITE))
    ensures BitCount(TriggerBoth(c, read, write).0) - BitCount(c) ==
      -(if read then 1 else 0) - (if write then 1 else 0)
  {
    hide CtxOk, BitCount, Trigger, Handed, FdCtx.Has;
    if read {
      TriggerContext(c, READ);
    }
    var c1 := if read then Trigger(c, READ) else c;
    if write {
      TriggerContext(c1, WRITE);
    }
  }

  /** What is ready among what is registered. */
  predicate ReadyFor(c: FdCtx, r: Ready, e: Event) {
    (match e case READ => r.input case WRITE => r.output) || (r.broken && c.Has(e))
  }

  lemma RealBits(c: FdCtx, r: Ready)
    requires CtxOk(c)
    ensures var ready := RealEvents(c, r);
            (ready & Bit(READ) != NONE <==> ReadyFor(c, r, READ)) &&
            (ready & Bit(WRITE) != NONE <==> ReadyFor(c, r, WRITE)) &&
            (c.events & ready != NONE <==>
               (c.Has(READ) && ReadyFor(c, r, READ)) || (c.Has(WRITE) && ReadyFor(c, r, WRITE))) &&
            (ready & !c.events == NONE <==>
               (ReadyFor(c, r, READ) ==> c.Has(READ)) && (ReadyFor(c, r, WRITE) ==> c.Has(WRITE)))
  {
    RealMask(ReadyFor(c, r, READ), ReadyFor(c, r, WRITE), c.events);
  }

  lemma RealMask(read: bool, write: bool, events: Mask)
    ensures var ready := (if read then Bit(READ) else NONE) | (if write then Bit(WRITE) else NONE);
            (ready & Bit(READ) != NONE <==> read) && (ready & Bit(WRITE) != NONE <==> write) &&
            (events & ready != NONE <==> (events & Bit(READ) != NONE && read) || (events & Bit(WRITE) != NONE && write)) &&
            (ready & !events == NONE <==>
               (read ==> events & Bit(READ) != NONE) && (write ==> events & Bit(WRITE) != NONE))
  {
  }

  lemma LeftMask(c: FdCtx, r: Ready)
    requires CtxOk(c)
    requires (ReadyFor(c, r, READ) ==> c.Has(READ)) && (ReadyFor(c, r, WRITE) ==> c.Has(WRITE))
    ensures TriggerBoth(c, ReadyFor(c, r, READ), ReadyFor(c, r, WRITE)).0.events == c.events & !RealEvents(c, r)
  {
    MaskOff(c.events);
  }

  lemma MaskOff(events: Mask)
    ensures (events & !Bit(READ)) & !Bit(WRITE) == events & !(Bit(READ) | Bit(WRITE))
    ensures events & !(NONE | Bit(WRITE)) == events & !Bit(WRITE)
    ensures events & !(Bit(READ) | NONE) == events & !Bit(READ)
    ensures events & !(NONE | NONE) == events
  {
  }

  /** Something registered is ready. */
  predicate Relevant(c: FdCtx, r: Ready) {
    (c.Has(READ) && ReadyFor(c, r, READ)) || (c.Has(WRITE) && ReadyFor(c, r, WRITE))
  }

  /** Everything ready is registered. */
  predicate OnlyRegistered(c: FdCtx, r: Ready) {
    (ReadyFor(c, r, READ) ==> c.Has(READ)) && (ReadyFor(c, r, WRITE) ==> c.Has(WRITE))
  }

  /** A delivery aborts exactly when part of what is ready is registered and part
      is not; otherwise it hands over the waiters that are ready, or nothing. */
  lemma DeliverInv(s: State, fd: nat, r: Ready, allowed: bool)
    requires Inv(s) && fd < |s.ctxs|
    ensures var c := s.ctxs[fd];
            var (s', out) := Deliver(s, fd, r, allowed);
            Inv(s') && s'.added == s.added && s'.deleted == s.deleted &&
            (out == Aborted <==> Relevant(c, r) && allowed && !OnlyRegistered(c, r)) &&
            (out == Returned(true) <==> Relevant(c, r) && allowed && OnlyRegistered(c, r)) &&
            (out == Returned(true) ==>
               s'.handed == s.handed + TriggerBoth(c, ReadyFor(c, r, READ), ReadyFor(c, r, WRITE)).1 &&
               s'.ctxs == s.ctxs[fd := TriggerBoth(c, ReadyFor(c, r, READ), ReadyFor(c, r, WRITE)).0]) &&
            (out != Returned(true) ==> s' == s)
  {
    hide Inv, Bag, BitCount, Handed, KernelAfter, Ctl, TriggerBoth, TriggerIf, RealEvents, ReadyFor, CtxOk;
    var c := s.ctxs[fd];
    ContextOk(s, fd);
    RealBits(c, r);
    var left := c.events & !RealEvents(c, r);
    CtlMay(s.kernel, LeaveOp(left), fd, left, allowed);
    if Relevant(c, r) {
      RelevantNonempty(c, r);
      CtlLegal(s, fd, left);
      if allowed && OnlyRegistered(c, r) {
        var read, write := ReadyFor(c, r, READ), ReadyFor(c, r, WRITE);
        TriggerTwice(s.(kernel := KernelAfter(s.kernel, fd, left)), fd, read, write);
        TriggerBothContext(c, read, write);
        LeftMask(c, r);
        PendingBoth(c, read, write);
        var (c2, hands) := TriggerBoth(c, read, write);
        ReplacedHand(s, fd, c2, hands);
      }
    }
  }

  lemma RelevantNonempty(c: FdCtx, r: Ready)
    requires CtxOk(c) && Relevant(c, r)
    ensures c.events != NONE
  {
    EventBits(c.events, READ, WRITE);
  }

  lemma InitialInv()
    ensures Inv(Initial())
  {
    RegisteredGrows([], 32);
    assert [] + NewContexts(32) == Resized([], 32);
    assert CtxOk(FRESH);
    hide Registered, BitsSet, NewContexts;
  }

  // ------------------------------------------------------ where a waiter goes

  /** The waiter stands in this slot. */
  predicate Holds(s: State, fd: nat, e: Event, h: Hand) {
    fd < |s.ctxs| && s.ctxs[fd].Has(e) && Handed(s.ctxs[fd].At(e)) == [h]
  }

  /** The waiter is among those handed over between two states. */
  predicate Passed(s: State, s': State, h: Hand) {
    s.handed <= s'.handed && h in s'.handed[|s.handed|..]
  }

  lemma PassedAppend(s: State, s': State, hands: seq<Hand>, h: Hand)
    requires s'.handed == s.handed + hands && h in hands
    ensures Passed(s, s', h)
  {
    assert s'.handed[|s.handed|..] == hands;
  }

  lemma PassedThrough(s: State, mid: State, s': State, h: Hand)
    requires s.handed <= mid.handed <= s'.handed
    requires Passed(s, mid, h) || Passed(mid, s', h)
    ensures Passed(s, s', h)
  {
    assert s'.handed[|s.handed|..] == mid.handed[|s.handed|..] + s'.handed[|mid.handed|..];
  }

  lemma {:induction false} HeldCounts(ctxs: seq<FdCtx>, fd: nat, e: Event, h: Hand)
    requires fd < |ctxs| && Handed(ctxs[fd].At(e)) == [h]
    ensures Registered(ctxs)[h] > 0
  {
    hide Handed;
    if fd < |ctxs| - 1 {
      HeldCounts(ctxs[..|ctxs| - 1], fd, e, h);
    } else {
      assert h in multiset(Handed(ctxs[fd].At(e)));
    }
  }

  /** A new registration is in its slot and moves no other. */
  lemma AddEventMoves(s: State, fd: nat, e: Event, cb: Option<nat>, fiber: nat, scheduler: nat, allowed: bool,
                      at: nat, dir: Event, h: Hand)
    requires Inv(s)
    ensures var (s', r) := AddEvent(s, fd, e, cb, fiber, scheduler, allowed);
            (Holds(s, at, dir, h) ==> Holds(s', at, dir, h)) &&
            (r == Returned(true) && [h] == Handed(NewSlot(scheduler, cb, fiber)) ==> Holds(s', fd, e, h))
  {
    hide Inv, Enlarged, Handed, NewSlot, Ctl;
    EnlargedInv(s, fd);
    var s1 := s.(ctxs := Enlarged(s.ctxs, fd));
    EnlargedKeeps(s, fd);
    if !s1.ctxs[fd].Has(e) {
      EventBits(s1.ctxs[fd].events, e, Other(e));
    }
  }

  lemma EnlargedKeeps(s: State, fd: nat)
    requires Inv(s)
    ensures |s.ctxs| <= |Enlarged(s.ctxs, fd)|
    ensures forall at :: 0 <= at < |s.ctxs| ==> Enlarged(s.ctxs, fd)[at] == s.ctxs[at]
  {
  }

  /** Cancelling an event hands its waiter over, and moves no other. */
  lemma CancelEventMoves(s: State, fd: nat, e: Event, allowed: bool, at: nat, dir: Event, h: Hand)
    requires Inv(s) && Holds(s, at, dir, h)
    ensures var s' := CancelEvent(s, fd, e, allowed).0;
            if (at, dir) == (fd, e) && allowed then Passed(s, s', h) else Holds(s', at, dir, h)
  {
    hide Inv, CtxOk, Bag, BitCount, Handed, Ctl;
    CancelEventInv(s, fd, e, allowed);
    var s' := CancelEvent(s, fd, e, allowed).0;
    if fd < |s.ctxs| && s.ctxs[fd].Has(e) {
      ContextOk(s, fd);
      TriggerContext(s.ctxs[fd], e);
      if (at, dir) == (fd, e) && allowed {
        PassedAppend(s, s', [h], h);
      }
    }
  }

  /** What is triggered is handed over; the rest stays. */
  lemma BothMove(c: FdCtx, read: bool, write: bool, e: Event, h: Hand)
    requires CtxOk(c) && (read ==> c.Has(READ)) && (write ==> c.Has(WRITE))
    requires c.Has(e) && Handed(c.At(e)) == [h]
    ensures var (c2, hands) := TriggerBoth(c, read, write);
            if (match e case READ => read case WRITE => write) then h in hands
            else c2.Has(e) && c2.At(e) == c.At(e)
  {
    hide CtxOk, Bag, BitCount, Trigger, Handed, FdCtx.Has, FdCtx.At;
    AtNames(c);
    if read {
      TriggerContext(c, READ);
    }
    var c1 := if read then Trigger(c, READ) else c;
    AtNames(c1);
    if write {
      TriggerContext(c1, WRITE);
    }
  }

  lemma AtNames(c: FdCtx)
    ensures c.At(READ) == c.read && c.At(WRITE) == c.write
  {
  }

  lemma CancelAllMoves(s: State, fd: nat, allowed: bool, at: nat, dir: Event, h: Hand)
    requires Inv(s) && Holds(s, at, dir, h)
    ensures var s' := CancelAll(s, fd, allowed).0;
            if at == fd && allowed then Passed(s, s', h) else Holds(s', at, dir, h)
  {
    hide Inv, CtxOk, Handed, TriggerBoth;
    CancelAllInv(s, fd, allowed);
    CancelAllOthers(s, fd, allowed);
    hide CancelAll;
    var s' := CancelAll(s, fd, allowed).0;
    if at == fd && allowed {
      ContextOk(s, fd);
      var c := s.ctxs[fd];
      HasSome(c, dir);
      BothMove(c, c.Has(READ), c.Has(WRITE), dir, h);
      PassedAppend(s, s', TriggerBoth(c, c.Has(READ), c.Has(WRITE)).1, h);
    }
  }

  lemma HasSome(c: FdCtx, e: Event)
    requires c.Has(e)
    ensures c.events != NONE
  {
  }

  lemma CancelAllOthers(s: State, fd: nat, allowed: bool)
    ensures var s' := CancelAll(s, fd, allowed).0;
            |s'.ctxs| == |s.ctxs| && forall at :: 0 <= at < |s.ctxs| && at != fd ==> s'.ctxs[at] == s.ctxs[at]
  {
    hide Trigger, Handed, FdCtx.Has;
  }

  /** A delivery hands over the waiters of what is ready, and moves no other. */
  lemma DeliverMoves(s: State, fd: nat, r: Ready, allowed: bool, at: nat, dir: Event, h: Hand)
    requires Inv(s) && Holds(s, at, dir, h) && fd < |s.ctxs| && OnlyRegistered(s.ctxs[fd], r)
    ensures var s' := Deliver(s, fd, r, allowed).0;
            if at == fd && allowed && ReadyFor(s.ctxs[fd], r, dir) then Passed(s, s', h) else Holds(s', at, dir, h)
  {
    hide Inv, CtxOk, Handed, TriggerBoth, Deliver, FdCtx.Has, FdCtx.At, ReadyFor;
    DeliverInv(s, fd, r, allowed);
    DeliverKeepsOthers(s, fd, r, allowed);
    var s' := Deliver(s, fd, r, allowed).0;
    var c := s.ctxs[fd];
    if at == fd && allowed && Relevant(c, r) {
      ContextOk(s, fd);
      var read, write := ReadyFor(c, r, READ), ReadyFor(c, r, WRITE);
      BothMove(c, read, write, dir, h);
      if ReadyFor(c, r, dir) {
        PassedAppend(s, s', TriggerBoth(c, read, write).1, h);
      }
    }
  }

  predicate HasBit(s: State, fd: nat, e: Event) {
    fd < |s.ctxs| && s.ctxs[fd].Has(e)
  }

  lemma PlusBit(c: FdCtx, e: Event, slot: Slot, dir: Event)
    ensures c.(events := Plus(c.events, e)).With(e, slot).Has(dir) <==> c.Has(dir) || dir == e
  {
    EventBits(c.events, e, Other(e));
  }

  lemma RegisterBit(s: State, fd: nat, e: Event, slot: Slot, at: nat, dir: Event)
    requires fd < |s.ctxs|
    ensures HasBit(Register(s, fd, e, slot), at, dir) <==> HasBit(s, at, dir) || (at == fd && dir == e)
  {
    hide FdCtx.Has, FdCtx.With, Plus, Handed;
    PlusBit(s.ctxs[fd], e, slot, dir);
  }

  lemma AddEventBit(s: State, fd: nat, e: Event, cb: Option<nat>, fiber: nat, scheduler: nat, allowed: bool,
                    at: nat, dir: Event)
    requires Inv(s)
    ensures var (s', r) := AddEvent(s, fd, e, cb, fiber, scheduler, allowed);
            HasBit(s', at, dir) <==> HasBit(s, at, dir) || (r == Returned(true) && at == fd && dir == e)
  {
    hide Inv, Enlarged, Handed, NewSlot, Ctl, Register, FdCtx.Has, FdCtx.At, Plus;
    EnlargedInv(s, fd);
    var s1 := s.(ctxs := Enlarged(s.ctxs, fd));
    EnlargedNoBit(s, fd, at, dir);
    match Ctl(s.kernel, if s1.ctxs[fd].events != NONE then CtlMod else CtlAdd, fd, Plus(s1.ctxs[fd].events, e), allowed)
    case None =>
    case Some(kernel) => RegisterBit(s1.(kernel := kernel), fd, e, NewSlot(scheduler, cb, fiber), at, dir);
  }

  lemma EnlargedNoBit(s: State, fd: nat, at: nat, dir: Event)
    requires Inv(s)
    ensures HasBit(s.(ctxs := Enlarged(s.ctxs, fd)), at, dir) <==> HasBit(s, at, dir)
  {
    FreshHasNothing(dir);
  }

  lemma CancelEventBit(s: State, fd: nat, e: Event, allowed: bool, at: nat, dir: Event)
    requires Inv(s)
    ensures HasBit(CancelEvent(s, fd, e, allowed).0, at, dir) <==>
              HasBit(s, at, dir) && !(allowed && at == fd && dir == e)
  {
    hide Inv, CtxOk, Bag, BitCount, Handed, Ctl;
    CancelEventInv(s, fd, e, allowed);
    if fd < |s.ctxs| && s.ctxs[fd].Has(e) {
      ContextOk(s, fd);
      TriggerContext(s.ctxs[fd], e);
    }
  }

  lemma CancelAllBit(s: State, fd: nat, allowed: bool, at: nat, dir: Event)
    requires Inv(s)
    ensures HasBit(CancelAll(s, fd, allowed).0, at, dir) <==> HasBit(s, at, dir) && !(allowed && at == fd)
  {
    hide Inv, Handed, TriggerBoth;
    CancelAllInv(s, fd, allowed);
    CancelAllOthers(s, fd, allowed);
    FreshHasNothing(dir);
    hide CancelAll;
    if HasBit(s, fd, dir) {
      HasSome(s.ctxs[fd], dir);
    }
  }

  lemma DeliverBit(s: State, fd: nat, r: Ready, allowed: bool, at: nat, dir: Event)
    requires Inv(s) && fd < |s.ctxs| && OnlyRegistered(s.ctxs[fd], r)
    ensures HasBit(Deliver(s, fd, r, allowed).0, at, dir) <==>
              HasBit(s, at, dir) && !(at == fd && allowed && ReadyFor(s.ctxs[fd], r, dir))
  {
    hide Inv, CtxOk, Handed, TriggerBoth, Deliver, FdCtx.Has, ReadyFor, Bag, BitCount;
    DeliverInv(s, fd, r, allowed);
    DeliverKeepsOthers(s, fd, r, allowed);
    var c := s.ctxs[fd];
    if at == fd && allowed && Relevant(c, r) {
      ContextOk(s, fd);
      TriggerBothContext(c, ReadyFor(c, r, READ), ReadyFor(c, r, WRITE));
    }
  }

  // -------------------------------------------------- a batch of deliveries

  datatype Report = Report(fd: nat, ready: Ready, allowed: bool)

  /** The loop of idle over what epoll_wait returned. */
  function DeliverAll(s: State, batch: seq<Report>): (State, Outcome)
    decreases |batch|
  {
    if batch == [] then (s, Returned(true))
    else
      var (s', r) := Deliver(s, batch[0].fd, batch[0].ready, batch[0].allowed);
      if r == Aborted then (s', Aborted) else DeliverAll(s', batch[1..])
  }

  /** Each descriptor is reported once, and only for what is registered. */
  ghost predicate Faithful(s: State, batch: seq<Report>) {
    && (forall i :: 0 <= i < |batch| ==>
          batch[i].fd < |s.ctxs| && OnlyRegistered(s.ctxs[batch[i].fd], batch[i].ready))
    && (forall i, j :: 0 <= i < j < |batch| ==> batch[i].fd != batch[j].fd)
  }

  lemma DeliverKeepsOthers(s: State, fd: nat, r: Ready, allowed: bool)
    requires Inv(s) && fd < |s.ctxs|
    ensures var s' := Deliver(s, fd, r, allowed).0;
            |s'.ctxs| == |s.ctxs| && forall other :: 0 <= other < |s.ctxs| && other != fd ==> s'.ctxs[other] == s.ctxs[other]
  {
    DeliverInv(s, fd, r, allowed);
    hide Inv, Deliver, TriggerBoth, ReadyFor, Relevant, OnlyRegistered;
  }

  lemma FaithfulRest(s: State, batch: seq<Report>)
    requires Inv(s) && Faithful(s, batch) && batch != []
    ensures Faithful(Deliver(s, batch[0].fd, batch[0].ready, batch[0].allowed).0, batch[1..])
  {
    hide Inv, Deliver, OnlyRegistered;
    DeliverKeepsOthers(s, batch[0].fd, batch[0].ready, batch[0].allowed);
  }

  /** A faithful batch never trips an assertion, whichever kernel calls fail. */
  lemma {:induction false} FaithfulBatch(s: State, batch: seq<Report>)
    requires Inv(s) && Faithful(s, batch)
    ensures var (s', r) := DeliverAll(s, batch);
            Inv(s') && r == Returned(true) && s'.added == s.added && s'.deleted == s.deleted && s.handed <= s'.handed
    decreases |batch|
  {
    hide Inv, Deliver, OnlyRegistered, Faithful, Relevant, ReadyFor, TriggerBoth;
    if batch != [] {
      FirstFaithful(s, batch);
      DeliverInv(s, batch[0].fd, batch[0].ready, batch[0].allowed);
      FaithfulRest(s, batch);
      FaithfulBatch(Deliver(s, batch[0].fd, batch[0].ready, batch[0].allowed).0, batch[1..]);
    }
  }

  /** A report, somewhere in the batch, that the waiter's event is ready and that
      the kernel lets through. */
  ghost predicate Reported(s: State, batch: seq<Report>, at: nat, dir: Event) {
    exists i :: 0 <= i < |batch| && batch[i].fd == at && batch[i].allowed &&
      at < |s.ctxs| && ReadyFor(s.ctxs[at], batch[i].ready, dir)
  }

  lemma ReportedFirst(s: State, batch: seq<Report>, at: nat, dir: Event)
    ensures batch == [] ==> !Reported(s, batch, at, dir)
    ensures (batch != [] && batch[0].fd == at && batch[0].allowed && at < |s.ctxs| &&
             ReadyFor(s.ctxs[at], batch[0].ready, dir)) ==> Reported(s, batch, at, dir)
  {
    hide ReadyFor;
  }

  lemma ReportedLater(s: State, batch: seq<Report>, at: nat, dir: Event)
    requires Inv(s) && Faithful(s, batch) && batch != [] && at < |s.ctxs|
    requires !(batch[0].fd == at && batch[0].allowed && ReadyFor(s.ctxs[at], batch[0].ready, dir))
    ensures Reported(s, batch, at, dir) <==>
            Reported(Deliver(s, batch[0].fd, batch[0].ready, batch[0].allowed).0, batch[1..], at, dir)
  {
    hide Inv, Deliver, OnlyRegistered, ReadyFor;
    DeliverKeepsOthers(s, batch[0].fd, batch[0].ready, batch[0].allowed);
    var mid := Deliver(s, batch[0].fd, batch[0].ready, batch[0].allowed).0;
    var rest := batch[1..];
    forall i | 1 <= i < |batch|
      ensures batch[i] == rest[i - 1]
    {
    }
    if Reported(s, batch, at, dir) {
      var i :| 0 <= i < |batch| && batch[i].fd == at && batch[i].allowed && ReadyFor(s.ctxs[at], batch[i].ready, dir);
      assert rest[i - 1] == batch[i];
    }
    if Reported(mid, rest, at, dir) {
      var i :| 0 <= i < |rest| && rest[i].fd == at && rest[i].allowed && ReadyFor(mid.ctxs[at], rest[i].ready, dir);
      assert batch[i + 1] == rest[i];
    }
  }

  /** A batch hands the waiter over exactly when its event is reported. */
  lemma {:induction false} BatchMoves(s: State, batch: seq<Report>, at: nat, dir: Event, h: Hand)
    requires Inv(s) && Faithful(s, batch) && Holds(s, at, dir, h)
    ensures var s' := DeliverAll(s, batch).0;
            if Reported(s, batch, at, dir) then Passed(s, s', h) else Holds(s', at, dir, h)
    decreases |batch|
  {
    hide Inv, Deliver, OnlyRegistered, Faithful, Relevant, ReadyFor, TriggerBoth, Handed, Passed, Reported;
    ReportedFirst(s, batch, at, dir);
    if batch != [] {
      FirstFaithful(s, batch);
      var b := batch[0];
      var mid := Deliver(s, b.fd, b.ready, b.allowed).0;
      DeliverInv(s, b.fd, b.ready, b.allowed);
      DeliverMoves(s, b.fd, b.ready, b.allowed, at, dir, h);
      FaithfulRest(s, batch);
      FaithfulBatch(mid, batch[1..]);
      if b.fd == at && b.allowed && ReadyFor(s.ctxs[b.fd], b.ready, dir) {
        PassedThrough(s, mid, DeliverAll(mid, batch[1..]).0, h);
      } else {
        ReportedLater(s, batch, at, dir);
        BatchMoves(mid, batch[1..], at, dir, h);
        if Reported(mid, batch[1..], at, dir) {
          PassedThrough(s, mid, DeliverAll(mid, batch[1..]).0, h);
        }
      }
    }
  }

  lemma {:induction false} BatchBit(s: State, batch: seq<Report>, at: nat, dir: Event)
    requires Inv(s) && Faithful(s, batch)
    ensures HasBit(DeliverAll(s, batch).0, at, dir) <==> HasBit(s, at, dir) && !Reported(s, batch, at, dir)
    decreases |batch|
  {
    hide Inv, Deliver, OnlyRegistered, Faithful, Relevant, ReadyFor, TriggerBoth, FdCtx.Has, Reported;
    ReportedFirst(s, batch, at, dir);
    if batch != [] {
      FirstFaithful(s, batch);
      var b := batch[0];
      var mid := Deliver(s, b.fd, b.ready, b.allowed).0;
      DeliverInv(s, b.fd, b.ready, b.allowed);
      DeliverBit(s, b.fd, b.ready, b.allowed, at, dir);
      FaithfulRest(s, batch);
      BatchBit(mid, batch[1..], at, dir);
      if HasBit(s, at, dir) && !(b.fd == at && b.allowed && ReadyFor(s.ctxs[at], b.ready, dir)) {
        ReportedLater(s, batch, at, dir);
      }
    }
  }

  lemma FirstFaithful(s: State, batch: seq<Report>)
    requires Faithful(s, batch) && batch != []
    ensures batch[0].fd < |s.ctxs| && OnlyRegistered(s.ctxs[batch[0].fd], batch[0].ready)
  {
  }

  // ------------------------------------------------------------------- runs

  datatype Op =
    | OpAdd(fd: nat, e: Event, cb: Option<nat>, fiber: nat, scheduler: nat, allowed: bool)
    | OpDel(fd: nat, e: Event, allowed: bool)
    | OpCancel(fd: nat, e: Event, allowed: bool)
    | OpCancelAll(fd: nat, allowed: bool)
    | OpDeliver(fd: nat, ready: Ready, allowed: bool)

  function Step(s: State, op: Op): (State, Outcome) {
    match op
    case OpAdd(fd, e, cb, fiber, scheduler, allowed) => AddEvent(s, fd, e, cb, fiber, scheduler, allowed)
    case OpDel(fd, e, allowed) => DelEvent(s, fd, e, allowed)
    case OpCancel(fd, e, allowed) => CancelEvent(s, fd, e, allowed)
    case OpCancelAll(fd, allowed) => CancelAll(s, fd, allowed)
    case OpDeliver(fd, ready, allowed) => Deliver(s, fd, ready, allowed)
  }

  /** A run of whole calls, one after the other.  It stops at the first failed
      assertion. */
  function Run(s: State, ops: seq<Op>): State
    decreases |ops|
  {
    if ops == [] then s
    else
      var (s', r) := Step(s, ops[0]);
      if r == Aborted then s' else Run(s', ops[1..])
  }

  lemma StepInv(s: State, op: Op)
    requires Inv(s)
    ensures Inv(Step(s, op).0)
  {
    hide Inv, AddEvent, DelEvent, CancelEvent, CancelAll, Handed, TriggerBoth, Relevant, ReadyFor, OnlyRegistered;
    match op
    case OpAdd(fd, e, cb, fiber, scheduler, allowed) => AddEventInv(s, fd, e, cb, fiber, scheduler, allowed);
    case OpDel(fd, e, allowed) => DelEventInv(s, fd, e, allowed);
    case OpCancel(fd, e, allowed) => CancelEventInv(s, fd, e, allowed);
    case OpCancelAll(fd, allowed) => CancelAllInv(s, fd, allowed);
    case OpDeliver(fd, ready, allowed) =>
      if fd < |s.ctxs| {
        DeliverInv(s, fd, ready, allowed);
      }
  }

  /** Masks, slots, kernel set, counter and waiters agree after every run of whole
      calls, whichever kernel calls failed on the way. */
  lemma {:induction false} RunInv(s: State, ops: seq<Op>)
    requires Inv(s)
    ensures Inv(Run(s, ops))
    decreases |ops|
  {
    hide Inv, Step;
    if ops != [] {
      StepInv(s, ops[0]);
      RunInv(Step(s, ops[0]).0, ops[1..]);
    }
  }

  /** The counter is the number of registered waiters, the totals balance, and a
      waiter added once is in exactly one place. */
  ghost predicate Balanced(s: State) {
    && s.pending == |Registered(s.ctxs)|
    && |s.added| == s.pending + |s.handed| + |s.deleted|
    && forall h: Hand :: multiset(s.added)[h] == Registered(s.ctxs)[h] + multiset(s.handed)[h] + multiset(s.deleted)[h]
  }

  lemma InvBalanced(s: State)
    requires Inv(s)
    ensures Balanced(s)
  {
    RegisteredSize(s.ctxs);
    hide Registered, BitsSet, CtxOk, KernelAgrees;
    assert |multiset(s.added)| == |s.added| && |multiset(s.handed)| == |s.handed| && |multiset(s.deleted)| == |s.deleted|;
  }

  lemma Conservation(ops: seq<Op>)
    ensures Balanced(Run(Initial(), ops))
  {
    hide Run, Initial, Balanced, Inv;
    InitialInv();
    RunInv(Initial(), ops);
    InvBalanced(Run(Initial(), ops));
  }

  // ------------------------------------------------------ who is left registered

  /** The calls that anyone may make; deliveries are the poller's. */
  predicate ByCaller(op: Op) {
    !op.OpDeliver?
  }

  /** The kernel lets a registration through. */
  predicate Arms(op: Op, fd: nat, e: Event) {
    op.OpAdd? && op.allowed && op.fd == fd && op.e == e
  }

  /** The kernel lets a removal through. */
  predicate TakesOff(op: Op, fd: nat, e: Event) {
    match op
    case OpDel(at, dir, allowed) => allowed && at == fd && dir == e
    case OpCancel(at, dir, allowed) => allowed && at == fd && dir == e
    case OpCancelAll(at, allowed) => allowed && at == fd
    case _ => false
  }

  lemma DelEventBit(s: State, fd: nat, e: Event, allowed: bool, at: nat, dir: Event)
    requires Inv(s)
    ensures HasBit(DelEvent(s, fd, e, allowed).0, at, dir) <==>
              HasBit(s, at, dir) && !(allowed && at == fd && dir == e)
  {
    hide Inv, CtxOk, Bag, BitCount, Handed, Ctl;
    DelEventInv(s, fd, e, allowed);
    if fd < |s.ctxs| && s.ctxs[fd].Has(e) {
      ContextOk(s, fd);
      DropSlotOk(s.ctxs[fd], e);
      TriggerContext(s.ctxs[fd], e);
    }
  }

  lemma StepBit(s: State, op: Op, fd: nat, e: Event)
    requires Inv(s) && ByCaller(op) && Step(s, op).1 != Aborted
    ensures HasBit(Step(s, op).0, fd, e) <==> Arms(op, fd, e) || (HasBit(s, fd, e) && !TakesOff(op, fd, e))
  {
    hide Inv, HasBit, AddEvent, DelEvent, CancelEvent, CancelAll, Handed, TriggerBoth;
    match op
    case OpAdd(at, dir, cb, fiber, scheduler, allowed) =>
      AddEventInv(s, at, dir, cb, fiber, scheduler, allowed);
      AddEventBit(s, at, dir, cb, fiber, scheduler, allowed, fd, e);
    case OpDel(at, dir, allowed) => DelEventBit(s, at, dir, allowed, fd, e);
    case OpCancel(at, dir, allowed) => CancelEventBit(s, at, dir, allowed, fd, e);
    case OpCancelAll(at, allowed) => CancelAllBit(s, at, allowed, fd, e);
  }

  /** No assertion fails on the run. */
  predicate Smooth(s: State, ops: seq<Op>)
    decreases |ops|
  {
    ops != [] ==> Step(s, ops[0]).1 != Aborted && Smooth(Step(s, ops[0]).0, ops[1..])
  }

  ghost predicate TakenOffIn(ops: seq<Op>, fd: nat, e: Event) {
    exists i :: 0 <= i < |ops| && TakesOff(ops[i], fd, e)
  }

  /** A call of the run registers the event and none after it takes it off. */
  ghost predicate LeftIn(ops: seq<Op>, fd: nat, e: Event) {
    exists i :: 0 <= i < |ops| && Arms(ops[i], fd, e) && !TakenOffIn(ops[i + 1..], fd, e)
  }

  lemma TakenOffStep(ops: seq<Op>, fd: nat, e: Event)
    requires ops != []
    ensures TakenOffIn(ops, fd, e) <==> TakesOff(ops[0], fd, e) || TakenOffIn(ops[1..], fd, e)
  {
    hide TakesOff;
    if TakenOffIn(ops, fd, e) {
      var i :| 0 <= i < |ops| && TakesOff(ops[i], fd, e);
      assert i > 0 ==> ops[1..][i - 1] == ops[i];
    }
    if TakenOffIn(ops[1..], fd, e) {
      var i :| 0 <= i < |ops[1..]| && TakesOff(ops[1..][i], fd, e);
      assert ops[i + 1] == ops[1..][i];
    }
  }

  lemma LeftStep(ops: seq<Op>, fd: nat, e: Event)
    requires ops != []
    ensures LeftIn(ops, fd, e) <==>
              (Arms(ops[0], fd, e) && !TakenOffIn(ops[1..], fd, e)) || LeftIn(ops[1..], fd, e)
  {
    hide Arms, TakenOffIn;
    if LeftIn(ops, fd, e) {
      var i :| 0 <= i < |ops| && Arms(ops[i], fd, e) && !TakenOffIn(ops[i + 1..], fd, e);
      assert i > 0 ==> ops[1..][i - 1] == ops[i] && ops[1..][i - 1 + 1..] == ops[i + 1..];
    }
    if LeftIn(ops[1..], fd, e) {
      var i :| 0 <= i < |ops[1..]| && Arms(ops[1..][i], fd, e) && !TakenOffIn(ops[1..][i + 1..], fd, e);
      assert ops[i + 1] == ops[1..][i] && ops[1..][i + 1..] == ops[i + 1 + 1..];
    }
  }

  ghost predicate CallersRun(ops: seq<Op>) {
    forall i :: 0 <= i < |ops| ==> ByCaller(ops[i])
  }

  lemma {:induction false} BitRun(s: State, ops: seq<Op>, fd: nat, e: Event)
    requires Inv(s) && Smooth(s, ops) && CallersRun(ops)
    ensures HasBit(Run(s, ops), fd, e) <==> (HasBit(s, fd, e) && !TakenOffIn(ops, fd, e)) || LeftIn(ops, fd, e)
    decreases |ops|
  {
    hide Inv, Step, HasBit, Arms, TakesOff, TakenOffIn, LeftIn;
    if ops == [] {
      NothingLeftIn(fd, e);
    } else {
      StepInv(s, ops[0]);
      StepBit(s, ops[0], fd, e);
      BitRun(Step(s, ops[0]).0, ops[1..], fd, e);
      TakenOffStep(ops, fd, e);
      LeftStep(ops, fd, e);
      ArmsOnly(ops[0], fd, e);
    }
  }

  lemma ArmsOnly(op: Op, fd: nat, e: Event)
    ensures Arms(op, fd, e) ==> !TakesOff(op, fd, e)
  {
  }

  lemma NothingLeftIn(fd: nat, e: Event)
    ensures !TakenOffIn([], fd, e) && !LeftIn([], fd, e)
  {
  }

  lemma {:induction false} BitsSetZero(ctxs: seq<FdCtx>)
    ensures BitsSet(ctxs) == 0 <==> forall fd :: 0 <= fd < |ctxs| ==> !ctxs[fd].Has(READ) && !ctxs[fd].Has(WRITE)
  {
    hide FdCtx.Has;
    if ctxs != [] {
      var init := ctxs[..|ctxs| - 1];
      BitsSetZero(init);
      assert forall fd :: 0 <= fd < |init| ==> init[fd] == ctxs[fd];
    }
  }

  lemma PendingZero(s: State)
    requires Inv(s)
    ensures s.pending == 0 <==> forall fd, e :: !HasBit(s, fd, e)
  {
    hide FdCtx.Has, CtxOk, KernelAgrees, Conserved;
    BitsSetZero(s.ctxs);
    if s.pending == 0 {
      forall fd, e
        ensures !HasBit(s, fd, e)
      {
        match e case READ => case WRITE =>
      }
    }
    if forall fd, e :: !HasBit(s, fd, e) {
      forall fd | 0 <= fd < |s.ctxs|
        ensures !s.ctxs[fd].Has(READ) && !s.ctxs[fd].Has(WRITE)
      {
        assert !HasBit(s, fd, READ) && !HasBit(s, fd, WRITE);
      }
    }
  }

  /** Starting with nothing registered, a run of callers' calls leaves nothing
      exactly when every registration that the kernel let through is taken off
      again later. */
  lemma EmptyAfter(s: State, ops: seq<Op>)
    requires Inv(s) && s.pending == 0 && Smooth(s, ops) && CallersRun(ops)
    ensures Run(s, ops).pending == 0 <==> forall fd, e :: !LeftIn(ops, fd, e)
  {
    hide Inv, HasBit, LeftIn, Smooth, CallersRun, TakenOffIn, Run;
    RunInv(s, ops);
    PendingZero(s);
    PendingZero(Run(s, ops));
    forall fd, e
      ensures HasBit(Run(s, ops), fd, e) <==> LeftIn(ops, fd, e)
    {
      BitRun(s, ops, fd, e);
    }
  }
}
