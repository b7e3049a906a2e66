// Event calls as their locked sections, interleaved freely: a call looks its
// context up, addEvent resizes the table when it looked too small, and then the
// call acts on the context it found.  The resizing does not look again, so it can
// also shrink the table.

module IoSections {
  import opened Common
  import opened IoSpec

  /** The context a call found: the one in the table, or one that the table has
      dropped since. */
  datatype Place = InTable | Dropped(ctx: FdCtx)

  datatype Progress = TooSmall(op: Op) | Found(op: Op, place: Place)

  /** The manager and the calls under way, by thread. */
  datatype Sections = Sections(io: State, calls: map<nat, Progress>)

  datatype Section =
    | Look(t: nat, op: Op)
    | Enlarge(t: nat)
    | Act(t: nat)
    | Poll(fd: nat, ready: Ready, allowed: bool)

  predicate Able(s: Sections, x: Section) {
    match x
    case Look(t, op) => t !in s.calls && ByCaller(op)
    case Enlarge(t) => t in s.calls && s.calls[t].TooSmall?
    case Act(t) => t in s.calls && s.calls[t].Found?
    case Poll(fd, _, _) => fd < |s.io.ctxs|
  }

  /** `fd * 1.5` truncated. */
  function NewSize(fd: nat): nat {
    fd * 3 / 2
  }

  /** A call whose context is beyond the new size keeps it, outside the table. */
  function Displaced(p: Progress, ctxs: seq<FdCtx>, size: nat): Progress {
    if p.Found? && p.place.InTable? && size <= p.op.fd < |ctxs| then p.(place := Dropped(ctxs[p.op.fd])) else p
  }

  function Resize(s: Sections, size: nat): Sections {
    Sections(s.io.(ctxs := Resized(s.io.ctxs, size)),
             map t | t in s.calls :: Displaced(s.calls[t], s.io.ctxs, size))
  }

  function Placed(ctxs: seq<FdCtx>, fd: nat, c: FdCtx): seq<FdCtx> {
    if fd < |ctxs| then ctxs[fd := c] else ctxs + NewContexts(fd - |ctxs|) + [c]
  }

  /** The call acts on a context that is not in the table. */
  function OnDropped(io: State, op: Op, c: FdCtx): (State, Outcome) {
    var (after, r) := Step(io.(ctxs := Placed(io.ctxs, op.fd, c)), op);
    (after.(ctxs := io.ctxs), r)
  }

  function SectionOf(s: Sections, x: Section): (Sections, Outcome)
    requires Able(s, x)
  {
    match x
    case Look(t, op) =>
      if op.fd < |s.io.ctxs| then (s.(calls := s.calls[t := Found(op, InTable)]), Returned(true))
      else if op.OpAdd? then (s.(calls := s.calls[t := TooSmall(op)]), Returned(true))
      else (s, Returned(false))
    case Enlarge(t) =>
      var op := s.calls[t].op;
      var s1 := Resize(s, NewSize(op.fd));
      (s1.(calls := s1.calls[t := Found(op, InTable)]), Returned(true))
    case Act(t) =>
      var op := s.calls[t].op;
      var (io, r) := match s.calls[t].place
        case InTable => Step(s.io, op)
        case Dropped(c) => OnDropped(s.io, op, c);
      (Sections(io, s.calls - {t}), r)
    case Poll(fd, ready, allowed) =>
      var (io, r) := Deliver(s.io, fd, ready, allowed);
      (s.(io := io), r)
  }

  // -------------------------------------------------------------- agreement

  predicate CallOk(p: Progress, size: nat) {
    && ByCaller(p.op)
    && (p.TooSmall? ==> p.op.OpAdd? && p.op.fd >= 32)
    && (p.Found? && p.place.InTable? ==> p.op.fd < size)
    && (p.Found? && p.place.Dropped? ==> p.place.ctx == FRESH)
  }

  /** The manager agrees with itself, what a call found is in the table, and what
      the table dropped was fresh. */
  ghost predicate SectionsInv(s: Sections) {
    Inv(s.io) && forall t :: t in s.calls ==> CallOk(s.calls[t], |s.io.ctxs|)
  }

  /** The resizing drops no context that has events. */
  predicate DropsNothing(ctxs: seq<FdCtx>, size: nat) {
    forall i :: size <= i < |ctxs| ==> ctxs[i].events == NONE
  }

  /** What a section must not do: drop a context with events, or register on a
      context that was dropped. */
  predicate Safe(s: Sections, x: Section)
    requires Able(s, x)
  {
    match x
    case Enlarge(t) => DropsNothing(s.io.ctxs, NewSize(s.calls[t].op.fd))
    case Act(t) =>
      s.calls[t].place.Dropped? ==>
        !(s.calls[t].op.OpAdd? && s.calls[t].op.allowed && s.calls[t].op.fd !in s.io.kernel)
    case _ => true
  }

  // ----------------------------------------------------------------- resizing

  lemma {:induction false} RegisteredPrefix(ctxs: seq<FdCtx>, size: nat)
    requires size <= |ctxs| && (forall i :: size <= i < |ctxs| ==> ctxs[i] == FRESH)
    ensures Registered(ctxs[..size]) == Registered(ctxs) && BitsSet(ctxs[..size]) == BitsSet(ctxs)
    decreases |ctxs|
  {
    hide Registered, BitsSet, Bag, BitCount;
    if size == |ctxs| {
      assert ctxs[..size] == ctxs;
    } else {
      var init := ctxs[..|ctxs| - 1];
      RegisteredPrefix(init, size);
      assert init[..size] == ctxs[..size];
      RegisteredSnoc(init, FRESH);
      assert init + [FRESH] == ctxs;
    }
  }

  lemma DroppedFresh(s: State, i: nat)
    requires Inv(s) && i < |s.ctxs| && s.ctxs[i].events == NONE
    ensures s.ctxs[i] == FRESH
  {
    ContextOk(s, i);
    hide Inv;
    NothingLeft(s.ctxs[i]);
  }

  lemma ShrunkInv(s: State, size: nat)
    requires Inv(s) && 32 <= size <= |s.ctxs| && DropsNothing(s.ctxs, size)
    ensures Inv(s.(ctxs := s.ctxs[..size]))
  {
    hide Registered, BitsSet, CtxOk;
    forall i | size <= i < |s.ctxs|
      ensures s.ctxs[i] == FRESH
    {
      DroppedFresh(s, i);
    }
    RegisteredPrefix(s.ctxs, size);
  }

  lemma GrownInv(s: State, size: nat)
    requires Inv(s) && |s.ctxs| <= size
    ensures Inv(s.(ctxs := Resized(s.ctxs, size)))
  {
    hide Registered, BitsSet, CtxOk, NewContexts;
    FreshOk();
    if size == |s.ctxs| {
      assert s.ctxs[..size] == s.ctxs;
    } else {
      RegisteredGrows(s.ctxs, size - |s.ctxs|);
    }
  }

  lemma FreshOk()
    ensures CtxOk(FRESH)
  {
  }

  /** Resizing keeps the agreement exactly when it drops no context with events;
      in particular when it does not shrink the table. */
  lemma ResizeExact(s: State, size: nat)
    requires Inv(s) && size >= 32
    ensures Inv(s.(ctxs := Resized(s.ctxs, size))) <==> DropsNothing(s.ctxs, size)
    ensures size >= |s.ctxs| ==> DropsNothing(s.ctxs, size)
  {
    if size >= |s.ctxs| {
      GrownInv(s, size);
    } else if DropsNothing(s.ctxs, size) {
      ShrunkInv(s, size);
    } else {
      var i :| size <= i < |s.ctxs| && s.ctxs[i].events != NONE;
      hide Registered, BitsSet, CtxOk;
      assert i in s.kernel;
    }
  }

  // ------------------------------------------------------- a dropped context

  lemma PlacedAt(ctxs: seq<FdCtx>, fd: nat, c: FdCtx)
    ensures fd < |Placed(ctxs, fd, c)| && Placed(ctxs, fd, c)[fd] == c
  {
  }

  /** On a dropped fresh context only a registration changes anything, and only if
      the kernel does not watch the descriptor already. */
  lemma OnDroppedFresh(io: State, op: Op)
    requires ByCaller(op)
    ensures var (after, r) := OnDropped(io, op, FRESH);
            r != Aborted &&
            (op.OpAdd? && op.allowed && op.fd !in io.kernel ==> op.fd in after.kernel && after.ctxs == io.ctxs) &&
            (!(op.OpAdd? && op.allowed && op.fd !in io.kernel) ==> after == io)
  {
    PlacedAt(io.ctxs, op.fd, FRESH);
    hide Placed, Handed, NewSlot;
    if !op.OpCancelAll? {
      FreshHasNothing(op.e);
    }
    assert FRESH.At(READ) == EMPTY && FRESH.At(WRITE) == EMPTY;
  }

  lemma WatchedNowhere(io: State, after: State, fd: nat)
    requires Inv(io) && fd !in io.kernel && fd in after.kernel && after.ctxs == io.ctxs
    ensures !Inv(after)
  {
    hide Registered, BitsSet, CtxOk;
  }

  // ------------------------------------------------------------ every section

  lemma EnlargeSection(s: Sections, t: nat)
    requires SectionsInv(s) && Able(s, Enlarge(t))
    ensures var s' := SectionOf(s, Enlarge(t)).0;
            (Inv(s'.io) <==> Safe(s, Enlarge(t))) && (Safe(s, Enlarge(t)) ==> SectionsInv(s'))
  {
    hide Inv, Resized;
    var size := NewSize(s.calls[t].op.fd);
    ResizeExact(s.io, size);
    forall i | DropsNothing(s.io.ctxs, size) && size <= i < |s.io.ctxs|
      ensures s.io.ctxs[i] == FRESH
    {
      DroppedFresh(s.io, i);
    }
  }

  lemma {:induction false} StepKeepsSize(io: State, op: Op)
    requires Inv(io) && op.fd < |io.ctxs|
    ensures |Step(io, op).0.ctxs| == |io.ctxs|
  {
    hide Inv, Ctl, Handed, TriggerBoth, Trigger, Drop, Register, TriggerAt, TriggerIf, AddEventIn;
    match op
    case OpAdd(fd, e, cb, fiber, scheduler, allowed) => AddKeepsSize(io, fd, e, NewSlot(scheduler, cb, fiber), allowed);
    case OpDel(fd, e, allowed) => DropKeepsSize(io, fd, e);
    case OpCancel(fd, e, allowed) => TriggerKeepsSize(io, fd, e);
    case OpCancelAll(fd, allowed) => CancelAllOthers(io, fd, allowed);
    case OpDeliver(fd, ready, allowed) => DeliverKeepsOthers(io, fd, ready, allowed);
  }

  lemma AddKeepsSize(io: State, fd: nat, e: Event, slot: Slot, allowed: bool)
    ensures |AddEventIn(io, fd, e, slot, allowed).0.ctxs| == |io.ctxs|
  {
    hide Ctl, Handed;
  }

  lemma DropKeepsSize(io: State, fd: nat, e: Event)
    requires fd < |io.ctxs|
    ensures forall kernel :: |Drop(io.(kernel := kernel), fd, e).ctxs| == |io.ctxs|
  {
  }

  lemma TriggerKeepsSize(io: State, fd: nat, e: Event)
    requires fd < |io.ctxs|
    ensures forall kernel :: |TriggerAt(io.(kernel := kernel), fd, e).ctxs| == |io.ctxs|
  {
  }

  lemma ActSection(s: Sections, t: nat)
    requires SectionsInv(s) && Able(s, Act(t))
    ensures var s' := SectionOf(s, Act(t)).0;
            (Inv(s'.io) <==> Safe(s, Act(t))) && (Safe(s, Act(t)) ==> SectionsInv(s'))
  {
    hide Inv, Step, OnDropped;
    var p := s.calls[t];
    if p.place.InTable? {
      StepInv(s.io, p.op);
      StepKeepsSize(s.io, p.op);
    } else {
      OnDroppedFresh(s.io, p.op);
      var after := OnDropped(s.io, p.op, FRESH).0;
      if !Safe(s, Act(t)) {
        WatchedNowhere(s.io, after, p.op.fd);
      }
    }
  }

  lemma LookSection(s: Sections, t: nat, op: Op)
    requires SectionsInv(s) && Able(s, Look(t, op))
    ensures SectionsInv(SectionOf(s, Look(t, op)).0)
  {
    hide Inv;
    LargeTable(s.io);
  }

  lemma LargeTable(s: State)
    requires Inv(s)
    ensures |s.ctxs| >= 32
  {
  }

  lemma PollSection(s: Sections, fd: nat, ready: Ready, allowed: bool)
    requires SectionsInv(s) && fd < |s.io.ctxs|
    ensures SectionsInv(SectionOf(s, Poll(fd, ready, allowed)).0)
  {
    hide Inv, Deliver;
    StepInv(s.io, OpDeliver(fd, ready, allowed));
    StepKeepsSize(s.io, OpDeliver(fd, ready, allowed));
    hide Step;
  }

  /** A section keeps masks, slots, kernel set and counter in agreement exactly when
      it is safe. */
  lemma SectionExact(s: Sections, x: Section)
    requires SectionsInv(s) && Able(s, x)
    ensures var s' := SectionOf(s, x).0;
            (Inv(s'.io) <==> Safe(s, x)) && (Safe(s, x) ==> SectionsInv(s'))
  {
    hide Inv, SectionOf, Resize, OnDropped, DropsNothing;
    match x
    case Look(t, op) => LookSection(s, t, op);
    case Enlarge(t) => EnlargeSection(s, t);
    case Act(t) => ActSection(s, t);
    case Poll(fd, ready, allowed) => PollSection(s, fd, ready, allowed);
  }

  // -------------------------------------------------------------------- runs

  ghost predicate AbleRun(s: Sections, xs: seq<Section>)
    decreases |xs|
  {
    xs != [] ==> Able(s, xs[0]) && (SectionOf(s, xs[0]).1 != Aborted ==> AbleRun(SectionOf(s, xs[0]).0, xs[1..]))
  }

  ghost predicate SafeRun(s: Sections, xs: seq<Section>)
    requires AbleRun(s, xs)
    decreases |xs|
  {
    xs != [] ==> Safe(s, xs[0]) && (SectionOf(s, xs[0]).1 != Aborted ==> SafeRun(SectionOf(s, xs[0]).0, xs[1..]))
  }

  /** The sections of a run, up to the first failed assertion. */
  ghost function Run(s: Sections, xs: seq<Section>): Sections
    requires AbleRun(s, xs)
    decreases |xs|
  {
    if xs == [] then s
    else
      var (s', r) := SectionOf(s, xs[0]);
      if r == Aborted then s' else Run(s', xs[1..])
  }

  lemma {:induction false} RunInv(s: Sections, xs: seq<Section>)
    requires SectionsInv(s) && AbleRun(s, xs) && SafeRun(s, xs)
    ensures SectionsInv(Run(s, xs))
    decreases |xs|
  {
    hide SectionsInv, SectionOf, Safe, Able, Inv;
    if xs != [] {
      SectionExact(s, xs[0]);
      if SectionOf(s, xs[0]).1 != Aborted {
        RunInv(SectionOf(s, xs[0]).0, xs[1..]);
      }
    }
  }

  function Start(): Sections {
    Sections(Initial(), map[])
  }

  /** Whatever the interleaving of their sections, calls keep everything in
      agreement and every waiter in one place, as long as no resizing drops a
      context with events and none registers on a dropped one. */
  lemma Agreement(xs: seq<Section>)
    requires AbleRun(Start(), xs) && SafeRun(Start(), xs)
    ensures Inv(Run(Start(), xs).io) && Balanced(Run(Start(), xs).io)
  {
    hide Inv, Balanced, Initial, Run, SafeRun, AbleRun;
    InitialInv();
    RunInv(Start(), xs);
    InvBalanced(Run(Start(), xs).io);
  }

  /** No resizing finds the table larger than it makes it. */
  ghost predicate NeverShrinks(s: Sections, xs: seq<Section>)
    requires AbleRun(s, xs)
    decreases |xs|
  {
    xs != [] ==>
      (xs[0].Enlarge? ==> |s.io.ctxs| <= NewSize(s.calls[xs[0].t].op.fd)) &&
      (SectionOf(s, xs[0]).1 != Aborted ==> NeverShrinks(SectionOf(s, xs[0]).0, xs[1..]))
  }

  predicate AllInTable(s: Sections) {
    forall t :: t in s.calls && s.calls[t].Found? ==> s.calls[t].place.InTable?
  }

  lemma GrowingSection(s: Sections, x: Section)
    requires Able(s, x) && AllInTable(s)
    requires x.Enlarge? ==> |s.io.ctxs| <= NewSize(s.calls[x.t].op.fd)
    ensures Safe(s, x) && AllInTable(SectionOf(s, x).0)
  {
    hide Resized, Step, Deliver;
  }

  /** In particular when the size is looked at again before resizing. */
  lemma {:induction false} GrowingIsSafe(s: Sections, xs: seq<Section>)
    requires AbleRun(s, xs) && AllInTable(s) && NeverShrinks(s, xs)
    ensures SafeRun(s, xs)
    decreases |xs|
  {
    hide SectionOf, Able, Safe, AllInTable;
    if xs != [] {
      GrowingSection(s, xs[0]);
      if SectionOf(s, xs[0]).1 != Aborted {
        GrowingIsSafe(SectionOf(s, xs[0]).0, xs[1..]);
      }
    }
  }

  // ------------------------------------------------------------ whole calls

  /** The sections of addEvent one after the other are the call. */
  lemma SerialAdd(s: Sections, t: nat, op: Op)
    requires op.OpAdd? && t !in s.calls && |s.io.ctxs| >= 32
    ensures var s1 := SectionOf(s, Look(t, op)).0;
            var s2 := if op.fd < |s.io.ctxs| then s1 else SectionOf(s1, Enlarge(t)).0;
            Able(s2, Act(t)) &&
            SectionOf(s2, Act(t)).1 == Step(s.io, op).1 &&
            (Step(s.io, op).1 != Aborted ==> SectionOf(s2, Act(t)).0.io == Step(s.io, op).0)
  {
    hide Resized, AddEventIn;
    var io := s.io.(ctxs := Enlarged(s.io.ctxs, op.fd));
    AddTwice(s.io, op);
  }

  /** So are those of the other calls: a descriptor beyond the table ends the call at
      the look, any other leads to the whole call. */
  lemma SerialOther(s: Sections, t: nat, op: Op)
    requires ByCaller(op) && !op.OpAdd? && t !in s.calls
    ensures var (s1, r) := SectionOf(s, Look(t, op));
            if op.fd >= |s.io.ctxs| then (s1.io, r) == Step(s.io, op) && s1.calls == s.calls
            else
              r == Returned(true) && Able(s1, Act(t)) &&
              (SectionOf(s1, Act(t)).0.io, SectionOf(s1, Act(t)).1) == Step(s.io, op)
  {
  }

  /** A report on a descriptor of the table is the whole call at any moment. */
  lemma SerialPoll(s: Sections, fd: nat, ready: Ready, allowed: bool)
    requires fd < |s.io.ctxs|
    ensures var (s1, r) := SectionOf(s, Poll(fd, ready, allowed));
            (s1.io, r) == Step(s.io, OpDeliver(fd, ready, allowed)) && s1.calls == s.calls
  {
  }

  lemma AddTwice(io: State, op: Op)
    requires op.OpAdd? && |io.ctxs| >= 32
    ensures op.fd < |Enlarged(io.ctxs, op.fd)|
    ensures Step(io.(ctxs := Enlarged(io.ctxs, op.fd)), op) == Step(io, op)
  {
  }

  // --------------------------------------------------------- two that collide

  /** Two threads find the table of a new manager too small, for descriptors 100
      and 40.  The first resizes to 150 and registers; the second resizes to 60.
      The kernel watches 100, which has no context, and cannot be cancelled. */
  lemma Collision()
    ensures var xs := Colliding();
            AbleRun(Start(), xs) &&
            var io := Run(Start(), xs).io;
            100 in io.kernel && |io.ctxs| == 60 && !Inv(io) &&
            (forall e, allowed :: CancelEvent(io, 100, e, allowed) == (io, Returned(false))) &&
            (forall allowed :: CancelAll(io, 100, allowed) == (io, Returned(false)))
  {
    hide Initial, Step, Inv, Resized, Able, SectionOf, Run, AbleRun;
    var a, b := OpAdd(100, READ, Some(0), 0, 0, true), OpAdd(40, READ, Some(1), 0, 0, true);
    InitialInv();
    NewTable();
    var s1, s2, s3 := TwoLooks(a, b);
    var s4 := WatchesHundred(s3, a, b);
    var s5 := DropsHundred(s4, b);
    EmptyRun(s5);
    Cons(s4, Enlarge(1), []);
    assert [Enlarge(1)] + [] == [Enlarge(1)];
    Cons(s3, Act(0), [Enlarge(1)]);
    assert [Act(0)] + [Enlarge(1)] == [Act(0), Enlarge(1)];
    Cons(s2, Enlarge(0), [Act(0), Enlarge(1)]);
    assert [Enlarge(0)] + [Act(0), Enlarge(1)] == [Enlarge(0), Act(0), Enlarge(1)];
    Cons(s1, Look(1, b), [Enlarge(0), Act(0), Enlarge(1)]);
    assert [Look(1, b)] + [Enlarge(0), Act(0), Enlarge(1)] == [Look(1, b), Enlarge(0), Act(0), Enlarge(1)];
    Cons(Start(), Look(0, a), [Look(1, b), Enlarge(0), Act(0), Enlarge(1)]);
    assert Colliding() == [Look(0, a)] + [Look(1, b), Enlarge(0), Act(0), Enlarge(1)];
  }

  lemma NewTable()
    ensures |Initial().ctxs| == 32
  {
  }

  lemma EmptyRun(s: Sections)
    ensures AbleRun(s, []) && Run(s, []) == s
  {
  }

  lemma Cons(s: Sections, x: Section, xs: seq<Section>)
    requires Able(s, x) && SectionOf(s, x).1 != Aborted && AbleRun(SectionOf(s, x).0, xs)
    ensures AbleRun(s, [x] + xs) && Run(s, [x] + xs) == Run(SectionOf(s, x).0, xs)
  {
    hide Able, SectionOf;
    assert ([x] + xs)[1..] == xs;
  }

  lemma TwoLooks(a: Op, b: Op) returns (s1: Sections, s2: Sections, s3: Sections)
    requires a.OpAdd? && b.OpAdd? && a.fd == 100 && b.fd == 40 && |Initial().ctxs| == 32
    ensures Able(Start(), Look(0, a)) && SectionOf(Start(), Look(0, a)) == (s1, Returned(true))
    ensures Able(s1, Look(1, b)) && SectionOf(s1, Look(1, b)) == (s2, Returned(true))
    ensures Able(s2, Enlarge(0)) && SectionOf(s2, Enlarge(0)) == (s3, Returned(true))
    ensures s3.io == Initial().(ctxs := Resized(Initial().ctxs, 150))
    ensures s3.calls == map[0 := Found(a, InTable), 1 := TooSmall(b)]
  {
    hide Initial, Resized;
    s1 := Sections(Initial(), map[0 := TooSmall(a)]);
    s2 := Sections(Initial(), map[0 := TooSmall(a), 1 := TooSmall(b)]);
    s3 := SectionOf(s2, Enlarge(0)).0;
  }

  lemma WatchesHundred(s3: Sections, a: Op, b: Op) returns (s4: Sections)
    requires a == OpAdd(100, READ, Some(0), 0, 0, true) && Inv(Initial()) && |Initial().ctxs| == 32
    requires s3.io == Initial().(ctxs := Resized(Initial().ctxs, 150))
    requires s3.calls == map[0 := Found(a, InTable), 1 := TooSmall(b)]
    ensures Able(s3, Act(0)) && SectionOf(s3, Act(0)) == (s4, Returned(true))
    ensures Inv(s4.io) && 100 in s4.io.kernel && |s4.io.ctxs| == 150 && s4.io.ctxs[100].events != NONE
    ensures s4.calls == map[1 := TooSmall(b)]
  {
    hide Initial, Inv, Step, FdCtx.Has;
    GrownInv(Initial(), 150);
    FreshPlace(Initial().ctxs, 150, 100);
    FreshHasNothing(READ);
    hide Resized;
    AddSection(s3.io);
    StepKeepsSize(s3.io, a);
    s4 := SectionOf(s3, Act(0)).0;
  }

  lemma FreshPlace(ctxs: seq<FdCtx>, size: nat, fd: nat)
    requires |ctxs| <= fd < size
    ensures Resized(ctxs, size)[fd] == FRESH
  {
  }

  lemma AddSection(io: State)
    requires Inv(io) && 100 < |io.ctxs| && !io.ctxs[100].Has(READ)
    ensures var (after, r) := Step(io, OpAdd(100, READ, Some(0), 0, 0, true));
            Inv(after) && r == Returned(true) &&
            (100 < |after.ctxs| ==> after.ctxs[100].events != NONE && 100 in after.kernel)
  {
    hide AddEvent, FdCtx.Has, Registered, BitsSet, CtxOk;
    AddEventInv(io, 100, READ, Some(0), 0, 0, true);
    AddEventBit(io, 100, READ, Some(0), 0, 0, true, 100, READ);
    var after := AddEvent(io, 100, READ, Some(0), 0, 0, true).0;
    if 100 < |after.ctxs| {
      HasSome(after.ctxs[100], READ);
    }
  }

  lemma DropsHundred(s4: Sections, b: Op) returns (s5: Sections)
    requires Inv(s4.io) && 100 in s4.io.kernel && |s4.io.ctxs| == 150 && s4.io.ctxs[100].events != NONE
    requires b.OpAdd? && b.fd == 40 && s4.calls == map[1 := TooSmall(b)]
    ensures Able(s4, Enlarge(1)) && SectionOf(s4, Enlarge(1)) == (s5, Returned(true))
    ensures 100 in s5.io.kernel && |s5.io.ctxs| == 60 && !Inv(s5.io)
  {
    hide Inv, Resized;
    ResizeExact(s4.io, 60);
    s5 := SectionOf(s4, Enlarge(1)).0;
  }

  function Colliding(): seq<Section> {
    [Look(0, OpAdd(100, READ, Some(0), 0, 0, true)), Look(1, OpAdd(40, READ, Some(1), 0, 0, true)),
     Enlarge(0), Act(0), Enlarge(1)]
  }
}
