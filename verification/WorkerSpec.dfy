// The loop of one worker as values: which fiber a callback runs on, when an
// assertion fails, and what holds when the loop ends.

module WorkerSpec {
  import opened Common
  import opened Fibers
  import opened SchedSpec
  import T = TimerSpec
  import I = IoSpec

  /** The fibers by name, the fiber kept for callbacks, the idle fiber, whether a
      stop was requested, and the timers and events. */
  datatype Loop<F(==)> = Loop(
    queue: seq<Entry<F>>, active: int, idling: int, fibers: map<F, FiberVal>, cb: Option<F>, idle: FiberState,
    stop: bool, tm: T.State, io: I.State)

  /** What code does to the scheduler, the timers and the events: what it queues,
      whether it requests a stop, and its calls. */
  datatype Deeds<F> = Deeds(pushed: seq<Entry<F>>, stop: bool, calls: seq<T.Call>, ops: seq<I.Op>)

  /** The code of a stretch: how it ends, and what is done meanwhile. */
  datatype Segment<F> = Segment(end: End, deeds: Deeds<F>)

  /** The input of one turn: what other threads do before the scan of the queue,
      between a scan that finds nothing and the look of the idle fiber at the
      timers, between that and its look at the pending count, and between that and
      its look at the queue; the stretch that is run; the fiber to be made if one
      is needed; and the time. */
  datatype Input<F> = Input(before: Deeds<F>, between: Deeds<F>, looked: Deeds<F>, counted: Deeds<F>,
                            segment: Segment<F>, spare: F, now: nat)

  datatype Outcome<F> = Next(s: Loop<F>) | Exits(s: Loop<F>) | Aborts

  function ValueOf<F(==)>(s: Loop<F>, f: F): FiberVal {
    if f in s.fibers then s.fibers[f] else FiberVal(INIT, None)
  }

  function InExec<F(==)>(fibers: map<F, FiberVal>): set<F> {
    set f | f in fibers && fibers[f].state == EXEC
  }

  /** A stop was requested and nothing is left: no timer, no event, no task. */
  predicate Quiescent<F(==)>(s: Loop<F>) {
    s.stop && s.tm.order == [] && s.io.pending == 0 && s.queue == [] && s.active == 0
  }

  function Did<F(==)>(s: Loop<F>, d: Deeds<F>): Loop<F> {
    s.(queue := s.queue + d.pushed, stop := s.stop || d.stop, tm := T.Run(s.tm, d.calls), io := I.Run(s.io, d.ops))
  }

  function Stretch<F(==)>(s: Loop<F>, f: F, g: Segment<F>): Loop<F> {
    Did(s, g.deeds).(fibers := s.fibers[f := Ran(ValueOf(s, f), g.end)])
  }

  function Requeued<F(==)>(s: Loop<F>, f: F): Loop<F> {
    s.(queue := s.queue + [Entry(FiberJob(f), ANY)])
  }

  /** A fiber is taken from the queue; one that is over is dropped. */
  function FiberTurn<F(==)>(s: Loop<F>, f: F, g: Segment<F>): Outcome<F> {
    if Over(ValueOf(s, f).state) then Next(s.(active := s.active - 1))
    else if ValueOf(s, f).state == EXEC then Aborts
    else
      var s' := Stretch(s, f, g).(active := s.active - 1);
      if s'.fibers[f].state == READY then Next(Requeued(s', f)) else Next(s')
  }

  /** The fiber a callback gets: the one kept, made ready for it, or a new one. */
  function CallbackFiber<F(==)>(s: Loop<F>, spare: F): F {
    if s.cb.Some? then s.cb.value else spare
  }

  function CallbackTurn<F(==)>(s: Loop<F>, cb: nat, g: Segment<F>, spare: F): Outcome<F> {
    if s.cb.Some? && !Resettable(ValueOf(s, s.cb.value).state) then Aborts
    else
      var f := CallbackFiber(s, spare);
      var s1 := s.(cb := Some(f), fibers := s.fibers[f := FiberVal(INIT, Some(cb))]);
      var s2 := Stretch(s1, f, g).(active := s.active - 1);
      match s2.fibers[f].state
      case READY => Next(Requeued(s2, f))
      case EXCEPT => Aborts
      case TERM => Next(s2.(fibers := s2.fibers[f := FiberVal(INIT, None)]))
      case _ => Next(s2.(cb := None))
  }

  /** The idle fiber has looked at the timers, which clears the tickle flag. */
  function TimersSeen<F(==)>(s: Loop<F>, t: Input<F>): Loop<F> {
    var s1 := Did(s, t.between);
    s1.(tm := T.DoGetNextTimer(s1.tm, t.now).0)
  }

  function EventsSeen<F(==)>(s: Loop<F>, t: Input<F>): Loop<F> {
    Did(TimersSeen(s, t), t.looked)
  }

  /** All of `stopping` is over. */
  function Checked<F(==)>(s: Loop<F>, t: Input<F>): Loop<F> {
    Did(EventsSeen(s, t), t.counted)
  }

  /** What `stopping` says: each part as it was when it was looked at. */
  predicate Stops<F(==)>(s: Loop<F>, t: Input<F>) {
    && T.DoGetNextTimer(Did(s, t.between).tm, t.now).1.timeout == T.NEVER
    && EventsSeen(s, t).io.pending == 0
    && Checked(s, t).stop && Checked(s, t).queue == [] && Checked(s, t).active == 0
  }

  /** Nothing to take: the loop ends once the idle fiber has; else the idle fiber
      ends if it finds everything done, or polls once. */
  function IdleTurn<F(==)>(s: Loop<F>, t: Input<F>): Outcome<F> {
    if s.idle == TERM then Exits(Did(s, t.between))
    else if s.idle == EXEC then Aborts
    else if Stops(s, t) then Next(Checked(s, t).(idle := TERM))
    else Next(Did(Checked(s, t), t.segment.deeds).(idle := HOLD))
  }

  /** What the turn takes. */
  function Taken<F(==)>(s: Loop<F>, me: int, t: Input<F>): Option<Entry<F>> {
    var q := s.queue + t.before.pushed;
    var i := First(q, me, InExec(s.fibers));
    if i < |q| then Some(q[i]) else None
  }

  /** The entry at `i` is off the queue and counted. */
  function TookAt<F(==)>(s: Loop<F>, i: nat): Loop<F>
    requires i < |s.queue|
  {
    s.(queue := Without(s.queue, i), active := s.active + 1)
  }

  function Turn<F(==)>(s: Loop<F>, me: int, t: Input<F>): Outcome<F> {
    var s1 := Did(s, t.before);
    var i := First(s1.queue, me, InExec(s.fibers));
    if i == |s1.queue| then IdleTurn(s1, t)
    else
      match s1.queue[i].job
      case FiberJob(f) => FiberTurn(TookAt(s1, i), f, t.segment)
      case CallbackJob(cb) => CallbackTurn(TookAt(s1, i), cb, t.segment, t.spare)
  }

  function Run<F(==)>(s: Loop<F>, me: int, ts: seq<Input<F>>): Outcome<F>
    decreases |ts|
  {
    if ts == [] then Next(s)
    else
      match Turn(s, me, ts[0])
      case Next(s') => Run(s', me, ts[1..])
      case o => o
  }

  // ------------------------------------------------------ fiber state checks

  predicate TakesCallback<F(==)>(s: Loop<F>, me: int, t: Input<F>) {
    var e := Taken(s, me, t);
    e.Some? && e.value.job.CallbackJob?
  }

  /** The turn by what it takes. */
  lemma TurnForm<F>(s: Loop<F>, me: int, t: Input<F>)
    ensures var s1 := Did(s, t.before);
            var i := First(s1.queue, me, InExec(s.fibers));
            (Taken(s, me, t).None? ==> i == |s1.queue| && Turn(s, me, t) == IdleTurn(s1, t)) &&
            (Taken(s, me, t).Some? ==>
               var e := Taken(s, me, t).value;
               i < |s1.queue| && e == s1.queue[i] &&
               Turn(s, me, t) ==
                 match e.job
                 case FiberJob(f) => FiberTurn(TookAt(s1, i), f, t.segment)
                 case CallbackJob(cb) => CallbackTurn(TookAt(s1, i), cb, t.segment, t.spare))
  {
    hide IdleTurn, FiberTurn, CallbackTurn, InExec, T.Run, I.Run;
  }

  /** A turn that takes a callback fails an assertion exactly when the fiber kept
      for callbacks is in the middle of something, or the callback throws. */
  lemma CallbackAborts<F>(s: Loop<F>, me: int, t: Input<F>)
    requires TakesCallback(s, me, t)
    ensures Turn(s, me, t).Aborts? <==>
              (s.cb.Some? && !Resettable(ValueOf(s, s.cb.value).state)) || t.segment.end == Throws
  {
    hide IdleTurn, FiberTurn, InExec, T.Run, I.Run, Turn, First;
    TurnForm(s, me, t);
  }

  /** Every entry for a fiber is for one of `names`. */
  predicate Known<F(==)>(q: seq<Entry<F>>, names: set<F>) {
    forall i :: 0 <= i < |q| && q[i].job.FiberJob? ==> q[i].job.f in names
  }

  predicate FibersOk<F(==)>(s: Loop<F>) {
    && (s.cb.Some? ==> s.cb.value in s.fibers)
    && (forall f :: f in s.fibers ==> s.fibers[f].state != EXEC)
    && (s.idle == INIT || s.idle == HOLD || s.idle == TERM)
    && Known(s.queue, s.fibers.Keys)
  }

  ghost predicate WorldOk<F>(s: Loop<F>) {
    T.Inv(s.tm) && (forall a :: a in s.tm.info ==> s.tm.info[a].next < U64) && I.Inv(s.io)
  }

  /** What holds at the head of the loop, whatever the callbacks do. */
  ghost predicate HeadInv<F>(s: Loop<F>) {
    s.active == 0 && s.idling == 0 && FibersOk(s) && WorldOk(s)
  }

  /** The fiber kept for callbacks is null, or INIT with nothing to run. */
  predicate KeptReady<F(==)>(s: Loop<F>) {
    s.cb.Some? ==> ValueOf(s, s.cb.value) == FiberVal(INIT, None)
  }

  ghost predicate LoopInv<F>(s: Loop<F>) {
    HeadInv(s) && KeptReady(s)
  }

  function NamesAfter<F(==)>(s: Loop<F>, me: int, t: Input<F>): set<F> {
    if TakesCallback(s, me, t) then s.fibers.Keys + {CallbackFiber(s, t.spare)} else s.fibers.Keys
  }

  /** The calls are on timers that exist, and no assertion about events fails. */
  ghost predicate Proper<F>(s: Loop<F>, d: Deeds<F>) {
    T.LegalRun(s.tm, d.calls) && I.Smooth(s.io, d.ops)
  }

  /** Other threads make only the calls that anyone may make, and schedule only
      fibers that exist. */
  ghost predicate Outside<F>(s: Loop<F>, d: Deeds<F>) {
    Proper(s, d) && T.CallersRun(d.calls) && I.CallersRun(d.ops) && Known(d.pushed, s.fibers.Keys)
  }

  ghost predicate IdleFair<F>(s: Loop<F>, t: Input<F>) {
    && Outside(s, t.between)
    && (s.idle != TERM ==>
          && Outside(TimersSeen(s, t), t.looked)
          && Outside(EventsSeen(s, t), t.counted)
          && Proper(Checked(s, t), t.segment.deeds)
          && Known(t.segment.deeds.pushed, s.fibers.Keys))
  }

  /** The clock is past 0, a new fiber is new, and nobody schedules a fiber that
      does not exist. */
  ghost predicate Fair<F>(s: Loop<F>, me: int, t: Input<F>) {
    && t.now > 0 && t.spare !in s.fibers
    && Outside(s, t.before)
    && if Taken(s, me, t).None? then IdleFair(Did(s, t.before), t)
       else Proper(Did(s, t.before), t.segment.deeds) && Known(t.segment.deeds.pushed, NamesAfter(s, me, t))
  }

  /** The turn takes an entry for the fiber kept for callbacks. */
  predicate TakesKept<F(==)>(s: Loop<F>, me: int, t: Input<F>) {
    var e := Taken(s, me, t);
    e.Some? && s.cb.Some? && e.value.job == FiberJob(s.cb.value)
  }

  /** A callback of this turn returns or yields HOLD, and the turn does not take an
      entry for the fiber kept for callbacks. */
  predicate Tame<F(==)>(s: Loop<F>, me: int, t: Input<F>) {
    (TakesCallback(s, me, t) ==> t.segment.end == Returns || t.segment.end == YieldsHold) && !TakesKept(s, me, t)
  }

  lemma KnownParts<F>(q: seq<Entry<F>>, i: nat, names: set<F>)
    requires i < |q| && Known(q, names)
    ensures Known(Without(q, i), names)
    ensures q[i].job.FiberJob? ==> q[i].job.f in names
  {
  }

  lemma KnownJoin<F>(p: seq<Entry<F>>, q: seq<Entry<F>>, names: set<F>)
    requires Known(p, names) && Known(q, names)
    ensures Known(p + q, names)
  {
  }

  lemma KnownMore<F>(q: seq<Entry<F>>, names: set<F>, more: set<F>)
    requires Known(q, names) && names <= more
    ensures Known(q, more)
  {
  }

  // --------------------------------------------------------- timers and events

  lemma DeadlinesBelow(tm: T.State, op: T.Op, now: nat)
    requires T.Inv(tm) && T.Legal(tm, op) && forall a :: a in tm.info ==> tm.info[a].next < U64
    ensures var tm' := T.Step(tm, op, now).0; forall a :: a in tm'.info ==> tm'.info[a].next < U64
  {
    hide T.Sorted, T.Rollover, T.Insert, T.Find, T.EraseAt, T.DoListExpiredCb;
    if op.ListExpiredCb? {
      T.ListExpired(tm, now, op.probe);
    }
  }

  lemma {:induction false} TimersRun(tm: T.State, calls: seq<T.Call>)
    requires T.Inv(tm) && T.LegalRun(tm, calls) && forall a :: a in tm.info ==> tm.info[a].next < U64
    ensures var tm' := T.Run(tm, calls); T.Inv(tm') && forall a :: a in tm'.info ==> tm'.info[a].next < U64
    decreases |calls|
  {
    hide T.Inv, T.Step, T.Legal;
    if calls != [] {
      T.StepInv(tm, calls[0].op, calls[0].now);
      DeadlinesBelow(tm, calls[0].op, calls[0].now);
      TimersRun(T.Step(tm, calls[0].op, calls[0].now).0, calls[1..]);
    }
  }

  lemma DidOk<F>(s: Loop<F>, d: Deeds<F>)
    requires WorldOk(s) && Proper(s, d)
    ensures WorldOk(Did(s, d))
  {
    hide T.Inv, I.Inv, T.Run, I.Run, T.LegalRun, I.Smooth;
    TimersRun(s.tm, d.calls);
    I.RunInv(s.io, d.ops);
  }

  lemma DidFields<F>(s: Loop<F>, d: Deeds<F>)
    ensures var s' := Did(s, d);
            s'.fibers == s.fibers && s'.cb == s.cb && s'.idle == s.idle && s'.active == s.active &&
            s'.idling == s.idling && s'.queue == s.queue + d.pushed
  {
    hide T.Run, I.Run;
  }

  lemma SeenOk<F>(s: Loop<F>, now: nat)
    requires WorldOk(s)
    ensures WorldOk(s.(tm := T.DoGetNextTimer(s.tm, now).0))
  {
    hide I.Inv;
    T.FlagInv(s.tm, false);
    hide T.Inv;
  }

  // ------------------------------------------------------------- the invariant

  /** What a turn begins from once its entry is off the queue. */
  ghost predicate TakenInv<F>(s: Loop<F>) {
    s.active == 1 && s.idling == 0 && FibersOk(s) && WorldOk(s)
  }

  /** A fiber's turn never fails, and leaves the kept fiber ready exactly if it was
      not the one taken. */
  lemma FiberTurnInv<F>(s: Loop<F>, f: F, g: Segment<F>)
    requires TakenInv(s) && f in s.fibers && Proper(s, g.deeds) && Known(g.deeds.pushed, s.fibers.Keys)
    ensures var o := FiberTurn(s, f, g);
            o.Next? && HeadInv(o.s) && (KeptReady(s) ==> (KeptReady(o.s) <==> Some(f) != s.cb))
  {
    hide WorldOk, Proper, Did;
    if !Over(s.fibers[f].state) {
      KnownJoin(s.queue, g.deeds.pushed, s.fibers.Keys);
      DidOk(s, g.deeds);
      DidFields(s, g.deeds);
      var s' := Stretch(s, f, g).(active := s.active - 1);
      assert s'.fibers.Keys == s.fibers.Keys;
      SameWorld(Did(s, g.deeds), s');
      KnownJoin(s.queue + g.deeds.pushed, [Entry(FiberJob(f), ANY)], s.fibers.Keys);
      SameWorld(Did(s, g.deeds), Requeued(s', f));
      hide Known;
    } else {
      SameWorld(s, s.(active := s.active - 1));
    }
  }

  lemma SameWorld<F>(s: Loop<F>, s': Loop<F>)
    requires WorldOk(s) && s'.tm == s.tm && s'.io == s.io
    ensures WorldOk(s')
  {
  }

  /** A callback's turn fails exactly when the kept fiber cannot be reset or the
      callback throws, and leaves the kept fiber ready exactly if the callback
      returns or yields HOLD. */
  lemma CallbackTurnInv<F>(s: Loop<F>, cb: nat, g: Segment<F>, spare: F)
    requires TakenInv(s) && spare !in s.fibers && Proper(s, g.deeds)
    requires Known(g.deeds.pushed, s.fibers.Keys + {CallbackFiber(s, spare)})
    ensures var o := CallbackTurn(s, cb, g, spare);
            !o.Exits? && (o.Aborts? <==> (s.cb.Some? && !Resettable(ValueOf(s, s.cb.value).state)) || g.end == Throws) &&
            (o.Next? ==> HeadInv(o.s) && (KeptReady(o.s) <==> g.end == Returns || g.end == YieldsHold))
  {
    hide WorldOk, Proper, T.Run, I.Run;
    var f := CallbackFiber(s, spare);
    var names := s.fibers.Keys + {f};
    KnownMore(s.queue, s.fibers.Keys, names);
    KnownJoin(s.queue, g.deeds.pushed, names);
    KnownJoin(s.queue + g.deeds.pushed, [Entry(FiberJob(f), ANY)], names);
    DidOk(s, g.deeds);
    var s1 := s.(cb := Some(f), fibers := s.fibers[f := FiberVal(INIT, Some(cb))]);
    var s2 := Stretch(s1, f, g).(active := s.active - 1);
    assert s2.fibers.Keys == names;
    var o := CallbackTurn(s, cb, g, spare);
    if o.Next? {
      SameWorld(Did(s, g.deeds), o.s);
    }
    hide Known;
    if g.end == Returns {
      assert s2.fibers[f := FiberVal(INIT, None)].Keys == names;
    }
  }

  /** What the idle fiber does to the rest of the loop. */
  lemma CheckedFields<F>(s: Loop<F>, t: Input<F>)
    ensures var s' := Checked(s, t);
            s'.fibers == s.fibers && s'.cb == s.cb && s'.idle == s.idle && s'.active == s.active &&
            s'.idling == s.idling && s'.queue == s.queue + t.between.pushed + t.looked.pushed + t.counted.pushed
  {
    hide Did, T.DoGetNextTimer;
    DidFields(s, t.between);
    DidFields(TimersSeen(s, t), t.looked);
    DidFields(EventsSeen(s, t), t.counted);
  }

  lemma CheckedOk<F>(s: Loop<F>, t: Input<F>)
    requires WorldOk(s) && IdleFair(s, t) && s.idle != TERM
    ensures WorldOk(Did(s, t.between)) && WorldOk(TimersSeen(s, t)) && WorldOk(EventsSeen(s, t)) && WorldOk(Checked(s, t))
    ensures Proper(Checked(s, t), t.segment.deeds)
  {
    hide WorldOk, Proper, Did, Known, T.DoGetNextTimer;
    DidOk(s, t.between);
    SeenOk(Did(s, t.between), t.now);
    DidOk(TimersSeen(s, t), t.looked);
    DidOk(EventsSeen(s, t), t.counted);
  }

  lemma IdleTurnInv<F>(s: Loop<F>, t: Input<F>)
    requires HeadInv(s) && IdleFair(s, t)
    ensures var o := IdleTurn(s, t);
            !o.Aborts? && HeadInv(o.s) && o.s.fibers == s.fibers && o.s.cb == s.cb && (o.Exits? <==> s.idle == TERM)
  {
    hide WorldOk, Proper, Did, Known, Checked, Stops;
    if s.idle == TERM {
      DidOk(s, t.between);
      DidFields(s, t.between);
      KnownJoin(s.queue, t.between.pushed, s.fibers.Keys);
    } else {
      CheckedOk(s, t);
      CheckedFields(s, t);
      CheckedKnown(s, t);
      var s3 := Checked(s, t);
      DidOk(s3, t.segment.deeds);
      DidFields(s3, t.segment.deeds);
      KnownJoin(s3.queue, t.segment.deeds.pushed, s.fibers.Keys);
      SameWorld(s3, s3.(idle := TERM));
      SameWorld(Did(s3, t.segment.deeds), Did(s3, t.segment.deeds).(idle := HOLD));
    }
  }

  lemma CheckedKnown<F>(s: Loop<F>, t: Input<F>)
    requires Known(s.queue, s.fibers.Keys) && IdleFair(s, t) && s.idle != TERM
    ensures Known(Checked(s, t).queue, s.fibers.Keys)
  {
    hide Known, Proper, Did, T.DoGetNextTimer;
    CheckedFields(s, t);
    DidFields(s, t.between);
    DidFields(TimersSeen(s, t), t.looked);
    KnownJoin(s.queue, t.between.pushed, s.fibers.Keys);
    KnownJoin(s.queue + t.between.pushed, t.looked.pushed, s.fibers.Keys);
    KnownJoin(s.queue + t.between.pushed + t.looked.pushed, t.counted.pushed, s.fibers.Keys);
  }

  lemma BeforeInv<F>(s: Loop<F>, d: Deeds<F>)
    requires HeadInv(s) && Outside(s, d)
    ensures HeadInv(Did(s, d))
  {
    hide WorldOk, Proper, Did, Known;
    DidOk(s, d);
    DidFields(s, d);
    KnownJoin(s.queue, d.pushed, s.fibers.Keys);
  }

  lemma TookInv<F>(s: Loop<F>, i: nat)
    requires HeadInv(s) && i < |s.queue|
    ensures TakenInv(TookAt(s, i))
    ensures var e := s.queue[i]; e.job.FiberJob? ==> e.job.f in s.fibers
  {
    hide WorldOk, Known, Without;
    KnownParts(s.queue, i, s.fibers.Keys);
    SameWorld(s, TookAt(s, i));
  }

  /** Every turn: an assertion about fiber states fails exactly when a callback is
      taken and the kept fiber cannot be reset, or the callback throws; and from a
      head where the kept fiber is ready, so it is at the next exactly if the turn
      is tame. */
  lemma TurnBase<F>(s: Loop<F>, me: int, t: Input<F>)
    requires HeadInv(s) && Fair(s, me, t)
    ensures var o := Turn(s, me, t);
            (o.Aborts? <==>
               TakesCallback(s, me, t) &&
               ((s.cb.Some? && !Resettable(ValueOf(s, s.cb.value).state)) || t.segment.end == Throws)) &&
            (!o.Aborts? ==> HeadInv(o.s) && (KeptReady(s) ==> (KeptReady(o.s) <==> Tame(s, me, t))))
  {
    hide HeadInv, Known, Proper, InExec, IdleTurn, FiberTurn, CallbackTurn, First, Without, Turn, Did, IdleFair, Resettable;
    TurnForm(s, me, t);
    BeforeInv(s, t.before);
    DidFields(s, t.before);
    var s1 := Did(s, t.before);
    var e := Taken(s, me, t);
    if e.Some? {
      var i := First(s1.queue, me, InExec(s.fibers));
      TookInv(s1, i);
      SameProper(s1, TookAt(s1, i), t.segment.deeds);
      match e.value.job
      case FiberJob(f) => FiberTurnInv(TookAt(s1, i), f, t.segment);
      case CallbackJob(cb) => CallbackTurnInv(TookAt(s1, i), cb, t.segment, t.spare);
    } else {
      IdleTurnInv(s1, t);
    }
  }

  /** From a right head no assertion fails and the next head is right exactly when
      the callback of the turn, if any, returns or yields HOLD, and the turn does
      not take an entry for the fiber kept. */
  lemma TurnExact<F>(s: Loop<F>, me: int, t: Input<F>)
    requires LoopInv(s) && Fair(s, me, t)
    ensures var o := Turn(s, me, t); (!o.Aborts? && LoopInv(o.s)) <==> Tame(s, me, t)
  {
    hide HeadInv, Fair, Turn, Taken;
    TurnBase(s, me, t);
  }

  lemma SameProper<F>(s: Loop<F>, s': Loop<F>, d: Deeds<F>)
    requires s'.tm == s.tm && s'.io == s.io
    ensures Proper(s', d) == Proper(s, d)
  {
  }

  /** After a callback the fiber kept is null or INIT exactly when the callback
      finished or yielded HOLD. */
  lemma HeadExact<F>(s: Loop<F>, me: int, t: Input<F>)
    requires LoopInv(s) && TakesCallback(s, me, t)
    ensures var o := Turn(s, me, t);
            (o.Next? && (o.s.cb.Some? ==> ValueOf(o.s, o.s.cb.value).state == INIT)) <==>
            (t.segment.end == Returns || t.segment.end == YieldsHold)
  {
    hide Known, WorldOk, InExec, IdleTurn, FiberTurn, First, Without, Turn, T.Run, I.Run;
    TurnForm(s, me, t);
  }

  lemma ReadyKept<F>(s: Loop<F>, me: int, t: Input<F>)
    requires LoopInv(s) && TakesCallback(s, me, t) && t.segment.end == YieldsReady
    ensures var o := Turn(s, me, t); o.Next? && o.s.cb.Some? && ValueOf(o.s, o.s.cb.value).state == READY
  {
    hide Known, WorldOk, InExec, IdleTurn, FiberTurn, First, Without, Turn, T.Run, I.Run;
    TurnForm(s, me, t);
  }

  /** A callback that yields READY leaves its fiber both kept and queued: the next
      turn that takes a callback before that fiber fails an assertion. */
  lemma ReadyThenAborts<F>(s: Loop<F>, me: int, t: Input<F>, u: Input<F>)
    requires LoopInv(s) && TakesCallback(s, me, t) && t.segment.end == YieldsReady
    ensures var o := Turn(s, me, t);
            o.Next? && (TakesCallback(o.s, me, u) ==> Turn(o.s, me, u).Aborts?)
  {
    hide Known, WorldOk, InExec, IdleTurn, FiberTurn, First, Without, Turn, T.Run, I.Run, TakesCallback, Taken;
    ReadyKept(s, me, t);
    if TakesCallback(Turn(s, me, t).s, me, u) {
      CallbackAborts(Turn(s, me, t).s, me, u);
    }
  }

  /** Code that queues `p` and does nothing else. */
  function Pushing<F>(p: seq<Entry<F>>): Deeds<F> {
    Deeds(p, false, [], [])
  }

  function Nothing<F>(): Deeds<F> {
    Pushing([])
  }

  function Quietly<F>(segment: Segment<F>, spare: F): Input<F> {
    Input(Nothing(), Nothing(), Nothing(), Nothing(), segment, spare, 1)
  }

  function NewLoop<F(==)>(queue: seq<Entry<F>>, idle: FiberState, stop: bool): Loop<F> {
    Loop(queue, 0, 0, map[], None, idle, stop, T.State(map[], [], false, 0, {}), I.Initial())
  }

  lemma NewLoopInv<F>(queue: seq<Entry<F>>, idle: FiberState, stop: bool)
    requires (idle == INIT || idle == HOLD || idle == TERM) && forall i :: 0 <= i < |queue| ==> queue[i].job.CallbackJob?
    ensures LoopInv(NewLoop(queue, idle, stop))
  {
    hide I.Initial, I.Inv, T.Inv;
    I.InitialInv();
    T.Initially(0);
  }

  /** Two callbacks in the queue are enough. */
  lemma ReadyAborts(idle: FiberState)
    requires idle == INIT || idle == HOLD
    ensures var s: Loop<nat> := NewLoop([Entry(CallbackJob(0), ANY), Entry(CallbackJob(1), ANY)], idle, false);
            var t := Quietly(Segment(YieldsReady, Nothing()), 7);
            LoopInv(s) && Run(s, 3, [t, t]).Aborts?
  {
    hide LoopInv, Turn, TakesCallback, NewLoop;
    var cbs: seq<Entry<nat>> := [Entry(CallbackJob(0), ANY), Entry(CallbackJob(1), ANY)];
    var s: Loop<nat> := NewLoop(cbs, idle, false);
    var t := Quietly(Segment(YieldsReady, Nothing()), 7);
    NewLoopInv(cbs, idle, false);
    FirstReady(idle);
    ReadyThenAborts(s, 3, t, t);
    assert [t, t][1..] == [t];
  }

  lemma FirstReady(idle: FiberState)
    ensures var s: Loop<nat> := NewLoop([Entry(CallbackJob(0), ANY), Entry(CallbackJob(1), ANY)], idle, false);
            var t := Quietly(Segment(YieldsReady, Nothing()), 7);
            TakesCallback(s, 3, t) && Turn(s, 3, t).Next? && TakesCallback(Turn(s, 3, t).s, 3, t)
  {
    hide I.Initial, FiberTurn, Turn, Taken, Did;
    var e: Entry<nat>, e': Entry<nat>, e'': Entry<nat> :=
      Entry(CallbackJob(0), ANY), Entry(CallbackJob(1), ANY), Entry(FiberJob(7), ANY);
    var s: Loop<nat> := NewLoop([e, e'], idle, false);
    var t := Quietly(Segment(YieldsReady, Nothing()), 7);
    assert [e, e'] == [e] + [e'] && [e'] + [] == [e'];
    FrontTaken(s, 3, t, e, [e']);
    var s1 := s.(queue := [e'], active := s.active + 1, cb := Some(7), fibers := s.fibers[7 := FiberVal(INIT, Some(0))]);
    DidPushing(s1, []);
    FrontTaken(Turn(s, 3, t).s, 3, t, e', [e'']);
  }

  // -------------------------------------------------------------------- runs

  ghost predicate FairRun<F>(s: Loop<F>, me: int, ts: seq<Input<F>>)
    decreases |ts|
  {
    ts != [] ==>
      Fair(s, me, ts[0]) && (Turn(s, me, ts[0]).Next? ==> FairRun(Turn(s, me, ts[0]).s, me, ts[1..]))
  }

  /** Every turn of the run is fair and tame. */
  ghost predicate GoodRun<F>(s: Loop<F>, me: int, ts: seq<Input<F>>)
    decreases |ts|
  {
    ts != [] ==>
      Fair(s, me, ts[0]) && Tame(s, me, ts[0]) &&
      (Turn(s, me, ts[0]).Next? ==> GoodRun(Turn(s, me, ts[0]).s, me, ts[1..]))
  }

  /** Every head of the run is right, and no assertion fails. */
  ghost predicate RightRun<F>(s: Loop<F>, me: int, ts: seq<Input<F>>)
    decreases |ts|
  {
    LoopInv(s) &&
    (ts != [] ==>
       var o := Turn(s, me, ts[0]);
       !o.Aborts? && LoopInv(o.s) && (o.Next? ==> RightRun(o.s, me, ts[1..])))
  }

  /** A run from a right head has only right heads, and fails no assertion about
      fiber states, exactly when all its turns are tame. */
  lemma {:induction false} RunExact<F>(s: Loop<F>, me: int, ts: seq<Input<F>>)
    requires LoopInv(s) && FairRun(s, me, ts)
    ensures RightRun(s, me, ts) <==> GoodRun(s, me, ts)
    decreases |ts|
  {
    hide LoopInv, Turn, Fair, Tame;
    if ts != [] {
      TurnExact(s, me, ts[0]);
      if Tame(s, me, ts[0]) && Turn(s, me, ts[0]).Next? {
        RunExact(Turn(s, me, ts[0]).s, me, ts[1..]);
      }
    }
  }

  lemma {:induction false} RunInv<F>(s: Loop<F>, me: int, ts: seq<Input<F>>)
    requires LoopInv(s) && GoodRun(s, me, ts)
    ensures var o := Run(s, me, ts); !o.Aborts? && LoopInv(o.s)
    decreases |ts|
  {
    hide LoopInv, Turn, Fair, Tame;
    if ts != [] {
      TurnExact(s, me, ts[0]);
      if Turn(s, me, ts[0]).Next? {
        RunInv(Turn(s, me, ts[0]).s, me, ts[1..]);
      }
    }
  }

  // ------------------------------------------------- the kept fiber, queued

  /** No entry is for the fiber kept for callbacks. */
  predicate Avoids<F(==)>(q: seq<Entry<F>>, cb: Option<F>) {
    forall i :: 0 <= i < |q| && q[i].job.FiberJob? ==> Some(q[i].job.f) != cb
  }

  lemma AvoidJoin<F>(p: seq<Entry<F>>, q: seq<Entry<F>>, cb: Option<F>)
    ensures Avoids(p + q, cb) <==> Avoids(p, cb) && Avoids(q, cb)
  {
    if Avoids(p + q, cb) {
      forall i | 0 <= i < |q| && q[i].job.FiberJob?
        ensures Some(q[i].job.f) != cb
      {
        assert (p + q)[|p| + i] == q[i];
      }
      forall i | 0 <= i < |p| && p[i].job.FiberJob?
        ensures Some(p[i].job.f) != cb
      {
        assert (p + q)[i] == p[i];
      }
    }
  }

  lemma AvoidWithout<F>(q: seq<Entry<F>>, i: nat, cb: Option<F>)
    requires i < |q| && Avoids(q, cb)
    ensures Avoids(Without(q, i), cb) && (q[i].job.FiberJob? ==> Some(q[i].job.f) != cb)
  {
  }

  lemma AvoidUnknown<F>(q: seq<Entry<F>>, names: set<F>, f: F)
    requires Known(q, names) && f !in names
    ensures Avoids(q, Some(f))
  {
  }

  /** Whatever the turn's code and other threads queue, it is not the fiber that is
      kept at the time. */
  predicate Spares<F(==)>(s: Loop<F>, me: int, t: Input<F>) {
    var o := Turn(s, me, t);
    && Avoids(t.before.pushed, s.cb)
    && (o.Next? ==> Avoids(t.between.pushed + t.looked.pushed + t.counted.pushed + t.segment.deeds.pushed, o.s.cb))
  }

  /** A queue without an entry for the kept fiber gives none to take, and stays so
      if nobody queues that fiber. */
  lemma SparedTurn<F>(s: Loop<F>, me: int, t: Input<F>)
    requires LoopInv(s) && Fair(s, me, t) && Avoids(s.queue, s.cb) && Spares(s, me, t)
    requires TakesCallback(s, me, t) ==> t.segment.end == Returns || t.segment.end == YieldsHold
    ensures Tame(s, me, t)
    ensures var o := Turn(s, me, t); o.Next? ==> Avoids(o.s.queue, o.s.cb)
  {
    hide HeadInv, Proper, InExec, IdleTurn, FiberTurn, CallbackTurn, First, Turn, Did, IdleFair, Avoids, Known, Without;
    TurnForm(s, me, t);
    DidFields(s, t.before);
    var s1 := Did(s, t.before);
    var i := First(s1.queue, me, InExec(s.fibers));
    var o := Turn(s, me, t);
    AvoidJoin(s.queue, t.before.pushed, s.cb);
    if o.Next? {
      AvoidJoin(t.between.pushed + t.looked.pushed + t.counted.pushed, t.segment.deeds.pushed, o.s.cb);
    }
    if i == |s1.queue| {
      IdleQueue(s1, t);
    } else {
      AvoidWithout(s1.queue, i, s.cb);
      match s1.queue[i].job
      case FiberJob(f) => FiberQueue(TookAt(s1, i), f, t.segment);
      case CallbackJob(cb) =>
        NewQueue(s, t, i);
        CallbackQueue(TookAt(s1, i), cb, t.segment, t.spare);
    }
  }

  lemma NewQueue<F>(s: Loop<F>, t: Input<F>, i: nat)
    requires HeadInv(s) && Outside(s, t.before) && t.spare !in s.fibers && i < |s.queue + t.before.pushed|
    ensures Avoids(Without(s.queue + t.before.pushed, i), Some(t.spare))
  {
    hide WorldOk, Proper, Known, Avoids, Without;
    KnownJoin(s.queue, t.before.pushed, s.fibers.Keys);
    AvoidUnknown(s.queue + t.before.pushed, s.fibers.Keys, t.spare);
    AvoidWithout(s.queue + t.before.pushed, i, Some(t.spare));
  }

  lemma FiberQueue<F>(s: Loop<F>, f: F, g: Segment<F>)
    requires Avoids(s.queue, s.cb) && Some(f) != s.cb
    ensures var o := FiberTurn(s, f, g); o.Next? && Avoids(g.deeds.pushed, o.s.cb) ==> Avoids(o.s.queue, o.s.cb)
  {
    hide Avoids, Did;
    DidFields(s, g.deeds);
    AvoidJoin(s.queue, g.deeds.pushed, s.cb);
    AvoidJoin(s.queue + g.deeds.pushed, [Entry(FiberJob(f), ANY)], s.cb);
    AvoidOne(Entry(FiberJob(f), ANY), s.cb);
  }

  lemma AvoidOne<F>(e: Entry<F>, cb: Option<F>)
    ensures Avoids([e], cb) <==> (e.job.FiberJob? ==> Some(e.job.f) != cb)
  {
    assert [e][0] == e;
  }

  lemma CallbackQueue<F>(s: Loop<F>, cb: nat, g: Segment<F>, spare: F)
    requires g.end == Returns || g.end == YieldsHold
    requires Avoids(s.queue, Some(CallbackFiber(s, spare)))
    ensures var o := CallbackTurn(s, cb, g, spare);
            o.Next? && Avoids(g.deeds.pushed, o.s.cb) ==> Avoids(o.s.queue, o.s.cb)
  {
    hide T.Run, I.Run;
  }

  lemma IdleQueue<F>(s: Loop<F>, t: Input<F>)
    requires Avoids(s.queue, s.cb)
    ensures var o := IdleTurn(s, t);
            (o.Next? && Avoids(t.between.pushed + t.looked.pushed + t.counted.pushed, o.s.cb) &&
             Avoids(t.segment.deeds.pushed, o.s.cb)) ==> Avoids(o.s.queue, o.s.cb)
  {
    hide Avoids, Did, Checked, Stops;
    CheckedFields(s, t);
    var p := t.between.pushed + t.looked.pushed + t.counted.pushed;
    assert Checked(s, t).queue == s.queue + p;
    DidFields(Checked(s, t), t.segment.deeds);
    AvoidJoin(s.queue, p, s.cb);
    AvoidJoin(s.queue + p, t.segment.deeds.pushed, s.cb);
  }

  ghost predicate SparedRun<F>(s: Loop<F>, me: int, ts: seq<Input<F>>)
    decreases |ts|
  {
    ts != [] ==>
      var o := Turn(s, me, ts[0]);
      Fair(s, me, ts[0]) && Spares(s, me, ts[0]) &&
      (TakesCallback(s, me, ts[0]) ==> ts[0].segment.end == Returns || ts[0].segment.end == YieldsHold) &&
      (o.Next? ==> SparedRun(o.s, me, ts[1..]))
  }

  /** Callbacks that return or yield HOLD, and nobody who schedules the kept fiber:
      every head of the run is right. */
  lemma {:induction false} SparedIsGood<F>(s: Loop<F>, me: int, ts: seq<Input<F>>)
    requires LoopInv(s) && Avoids(s.queue, s.cb) && SparedRun(s, me, ts)
    ensures GoodRun(s, me, ts)
    decreases |ts|
  {
    hide LoopInv, Turn, Fair, Tame, Avoids, Spares, TakesCallback;
    if ts != [] {
      SparedTurn(s, me, ts[0]);
      TurnExact(s, me, ts[0]);
      if Turn(s, me, ts[0]).Next? {
        SparedIsGood(Turn(s, me, ts[0]).s, me, ts[1..]);
      }
    }
  }

  /** An entry for the kept fiber, once taken, has nothing to run: it throws, and
      the next turn that takes a callback fails an assertion. */
  lemma KeptThenAborts<F>(s: Loop<F>, me: int, t: Input<F>, u: Input<F>)
    requires LoopInv(s) && TakesKept(s, me, t)
    ensures var o := Turn(s, me, t);
            o.Next? && (TakesCallback(o.s, me, u) ==> Turn(o.s, me, u).Aborts?)
  {
    hide Known, WorldOk, InExec, IdleTurn, CallbackTurn, First, Without, Turn, T.Run, I.Run, TakesCallback;
    TurnForm(s, me, t);
    if TakesCallback(Turn(s, me, t).s, me, u) {
      CallbackAborts(Turn(s, me, t).s, me, u);
    }
  }

  lemma DidPushing<F>(s: Loop<F>, p: seq<Entry<F>>)
    ensures Did(s, Pushing(p)) == s.(queue := s.queue + p)
    ensures Proper(s, Pushing(p)) && (Known(p, s.fibers.Keys) ==> Outside(s, Pushing(p)))
  {
  }

  /** No fiber is running and the entry in front is for any thread: it is taken. */
  lemma FrontTaken<F>(s: Loop<F>, me: int, t: Input<F>, e: Entry<F>, rest: seq<Entry<F>>)
    requires t.before == Pushing([]) && s.queue == [e] + rest && e.thread == ANY && InExec(s.fibers) == {}
    ensures Taken(s, me, t) == Some(e)
    ensures var s1 := s.(queue := rest, active := s.active + 1);
            Turn(s, me, t) ==
              if e.job.FiberJob? then FiberTurn(s1, e.job.f, t.segment)
              else CallbackTurn(s1, e.job.cb, t.segment, t.spare)
  {
    hide FiberTurn, CallbackTurn, IdleTurn, Did, InExec, Turn;
    DidPushing(s, []);
    assert s.queue + [] == s.queue;
    assert First(s.queue, me, {}) == 0;
    assert Without(s.queue, 0) == rest;
    TurnForm(s, me, t);
  }

  /** Such a turn is fair if the code that it runs queues only what it may. */
  lemma FrontFair<F>(s: Loop<F>, me: int, t: Input<F>, e: Entry<F>, p: seq<Entry<F>>)
    requires t.before == Pushing([]) && t.segment.deeds == Pushing(p) && t.now > 0 && t.spare !in s.fibers
    requires Taken(s, me, t) == Some(e) && Known(p, NamesAfter(s, me, t))
    ensures Fair(s, me, t)
  {
    hide Did, Taken, Outside, Proper, NamesAfter;
    DidPushing(s, []);
    DidPushing(Did(s, t.before), p);
  }

  const SELF_CODE: seq<Entry<nat>> := [Entry(FiberJob(7), ANY)] + [Entry(CallbackJob(1), ANY)]

  /** The loop of the run below as its first callback has returned. */
  function SelfQueued(s: Loop<nat>): Loop<nat> {
    s.(queue := SELF_CODE, fibers := map[7 := FiberVal(INIT, None)], cb := Some(7))
  }

  /** A callback that schedules its own fiber and returns, with one more callback
      behind it: every callback returns, and the third turn fails. */
  lemma SelfScheduled()
    ensures var s: Loop<nat> := NewLoop([Entry(CallbackJob(0), ANY)] + [], HOLD, false);
            var t := Quietly(Segment(Returns, Pushing(SELF_CODE)), 7);
            var u: Input<nat> := Quietly(Segment(Returns, Pushing([])), 8);
            LoopInv(s) && FairRun(s, 3, [t] + ([u] + ([u] + []))) && Run(s, 3, [t] + ([u] + ([u] + []))).Aborts?
  {
    hide LoopInv, Turn, TakesCallback, Run, FairRun, Fair, TakesKept, I.Initial;
    var s: Loop<nat> := NewLoop([Entry(CallbackJob(0), ANY)] + [], HOLD, false);
    var t := Quietly(Segment(Returns, Pushing(SELF_CODE)), 7);
    var u: Input<nat> := Quietly(Segment(Returns, Pushing([])), 8);
    NewLoopInv<nat>([Entry(CallbackJob(0), ANY)] + [], HOLD, false);
    SelfFirst(s, t);
    var s1 := SelfQueued(s);
    TurnExact(s, 3, t);
    SelfSecond(s1, u);
    KeptThenAborts(s1, 3, u, u);
    NoTurns(s);
    FairCons(Turn(s1, 3, u).s, 3, u, []);
    FairCons(s1, 3, u, [u] + []);
    FairCons(s, 3, t, [u] + ([u] + []));
  }

  lemma SelfFirst(s: Loop<nat>, t: Input<nat>)
    requires s.queue == [Entry(CallbackJob(0), ANY)] + [] && s.fibers == map[] && s.cb == None
    requires t == Quietly(Segment(Returns, Pushing(SELF_CODE)), 7)
    ensures Fair(s, 3, t) && Tame(s, 3, t) && Turn(s, 3, t) == Next(SelfQueued(s))
  {
    hide Turn, Taken, Did, Fair;
    var e: Entry<nat> := Entry(CallbackJob(0), ANY);
    FrontTaken(s, 3, t, e, []);
    FrontFair(s, 3, t, e, SELF_CODE);
    var s1 := s.(queue := [], active := s.active + 1, cb := Some(7), fibers := s.fibers[7 := FiberVal(INIT, Some(0))]);
    DidPushing(s1, SELF_CODE);
    assert [] + SELF_CODE == SELF_CODE;
  }

  lemma SelfSecond(s: Loop<nat>, u: Input<nat>)
    requires s == SelfQueued(s) && u == Quietly(Segment(Returns, Pushing([])), 8)
    ensures Fair(s, 3, u) && TakesKept(s, 3, u) && Turn(s, 3, u).Next?
    ensures var s2 := Turn(s, 3, u).s; Fair(s2, 3, u) && TakesCallback(s2, 3, u)
  {
    hide Turn, Taken, Did, Fair, CallbackTurn;
    var e: Entry<nat>, e': Entry<nat> := Entry(FiberJob(7), ANY), Entry(CallbackJob(1), ANY);
    FrontTaken(s, 3, u, e, [e']);
    FrontFair(s, 3, u, e, []);
    var s1 := s.(queue := [e'], active := s.active + 1);
    DidPushing(s1, []);
    assert [e'] + [] == [e'];
    var s2 := Turn(s, 3, u).s;
    assert s2 == s.(queue := [e'], fibers := map[7 := FiberVal(EXCEPT, None)]);
    FrontTaken(s2, 3, u, e', []);
    FrontFair(s2, 3, u, e', []);
  }

  lemma FairCons<F>(s: Loop<F>, me: int, t: Input<F>, ts: seq<Input<F>>)
    ensures Run(s, me, [t] + ts) == if Turn(s, me, t).Next? then Run(Turn(s, me, t).s, me, ts) else Turn(s, me, t)
    ensures Fair(s, me, t) && (Turn(s, me, t).Next? ==> FairRun(Turn(s, me, t).s, me, ts)) ==> FairRun(s, me, [t] + ts)
  {
    hide Turn, Fair;
    assert ([t] + ts)[1..] == ts;
  }

  // -------------------------------------------------------------- held fibers

  /** A fiber that is neither taken nor kept keeps its state and its callback. */
  lemma OthersKept<F>(s: Loop<F>, me: int, t: Input<F>, f: F)
    requires HeadInv(s) && Fair(s, me, t) && f in s.fibers && Some(f) != s.cb && !Turn(s, me, t).Aborts?
    requires var e := Taken(s, me, t); e.Some? ==> e.value.job != FiberJob(f)
    ensures var o := Turn(s, me, t); f in o.s.fibers && o.s.fibers[f] == s.fibers[f] && o.s.cb != Some(f)
  {
    hide Known, InExec, First, Without, Turn, HeadInv, Did, IdleTurn, IdleFair, Proper;
    TurnForm(s, me, t);
    BeforeInv(s, t.before);
    DidFields(s, t.before);
    var s1 := Did(s, t.before);
    if Taken(s, me, t).None? {
      IdleTurnInv(s1, t);
    } else {
      DidFields(TookAt(s1, First(s1.queue, me, InExec(s.fibers))), t.segment.deeds);
      CallbackDid(TookAt(s1, First(s1.queue, me, InExec(s.fibers))), t);
    }
  }

  lemma CallbackDid<F>(s: Loop<F>, t: Input<F>)
    ensures forall cb: nat ::
      var f := CallbackFiber(s, t.spare);
      var s1 := s.(cb := Some(f), fibers := s.fibers[f := FiberVal(INIT, Some(cb))]);
      Did(s1, t.segment.deeds).cb == s1.cb
  {
    hide T.Run, I.Run;
  }

  ghost predicate NotTaken<F>(s: Loop<F>, me: int, ts: seq<Input<F>>, f: F)
    decreases |ts|
  {
    ts != [] ==>
      (var e := Taken(s, me, ts[0]); e.Some? ==> e.value.job != FiberJob(f)) &&
      (Turn(s, me, ts[0]).Next? ==> NotTaken(Turn(s, me, ts[0]).s, me, ts[1..], f))
  }

  /** A held fiber is never given another callback: until it is resumed itself it
      keeps its state and its own callback. */
  lemma {:induction false} HeldKept<F>(s: Loop<F>, me: int, ts: seq<Input<F>>, f: F)
    requires HeadInv(s) && FairRun(s, me, ts) && NotTaken(s, me, ts, f)
    requires f in s.fibers && Some(f) != s.cb
    ensures var o := Run(s, me, ts); !o.Aborts? ==> f in o.s.fibers && o.s.fibers[f] == s.fibers[f]
    decreases |ts|
  {
    hide HeadInv, Turn, Fair, Tame, Taken, TakesCallback, KeptReady;
    if ts != [] {
      TurnBase(s, me, ts[0]);
      if !Turn(s, me, ts[0]).Aborts? {
        OthersKept(s, me, ts[0], f);
      }
      if Turn(s, me, ts[0]).Next? {
        HeldKept(Turn(s, me, ts[0]).s, me, ts[1..], f);
      }
    }
  }

  /** A callback that yields HOLD leaves a fiber of its own behind: it holds that
      callback and is no longer kept for others. */
  lemma HeldIsReleased<F>(s: Loop<F>, me: int, t: Input<F>)
    requires LoopInv(s) && TakesCallback(s, me, t) && t.segment.end == YieldsHold
    ensures var o := Turn(s, me, t);
            var f := CallbackFiber(s, t.spare);
            o.Next? && f in o.s.fibers && o.s.cb.None? &&
            o.s.fibers[f] == FiberVal(HOLD, Some(Taken(s, me, t).value.job.cb)) &&
            (f in s.fibers && s.cb.Some? ==> s.fibers[f].state == INIT)
  {
    hide Known, WorldOk, InExec, IdleTurn, FiberTurn, First, Without, Turn, T.Run, I.Run;
    TurnForm(s, me, t);
  }

  // ---------------------------------------------------------------- the exit

  /** Of the timers these calls add, each has a callback and is cancelled later. */
  ghost predicate LeaveNoTimer(calls: seq<T.Call>) {
    forall i :: 0 <= i < |calls| ==> !T.Stays(calls, i)
  }

  /** Of the events these calls register, each is taken off again later. */
  ghost predicate LeaveNoEvent(ops: seq<I.Op>) {
    forall fd, e :: !I.LeftIn(ops, fd, e)
  }

  lemma {:induction false} TimersJoin(tm: T.State, a: seq<T.Call>, b: seq<T.Call>)
    requires T.LegalRun(tm, a) && T.LegalRun(T.Run(tm, a), b)
    ensures T.LegalRun(tm, a + b) && T.Run(tm, a + b) == T.Run(T.Run(tm, a), b)
    decreases |a|
  {
    hide T.Step, T.Legal;
    if a == [] {
      assert a + b == b;
    } else {
      assert (a + b)[1..] == a[1..] + b;
      TimersJoin(T.Step(tm, a[0].op, a[0].now).0, a[1..], b);
    }
  }

  lemma {:induction false} EventsJoin(io: I.State, a: seq<I.Op>, b: seq<I.Op>)
    requires I.Smooth(io, a) && I.Smooth(I.Run(io, a), b)
    ensures I.Smooth(io, a + b) && I.Run(io, a + b) == I.Run(I.Run(io, a), b)
    decreases |a|
  {
    hide I.Step;
    if a == [] {
      assert a + b == b;
    } else {
      assert (a + b)[1..] == a[1..] + b;
      EventsJoin(I.Step(io, a[0]).0, a[1..], b);
    }
  }

  function Then<F>(d: Deeds<F>, u: Deeds<F>): Deeds<F> {
    Deeds(d.pushed + u.pushed, d.stop || u.stop, d.calls + u.calls, d.ops + u.ops)
  }

  /** What two groups of other threads do is what one does. */
  lemma DidTwice<F>(s: Loop<F>, d: Deeds<F>, u: Deeds<F>)
    requires Outside(s, d) && Outside(Did(s, d), u)
    ensures Did(Did(s, d), u) == Did(s, Then(d, u)) && Outside(s, Then(d, u))
  {
    hide T.Run, I.Run, T.LegalRun, I.Smooth, Known;
    TimersJoin(s.tm, d.calls, u.calls);
    EventsJoin(s.io, d.ops, u.ops);
    KnownJoin(d.pushed, u.pushed, s.fibers.Keys);
    ConcatAssociates(s.queue, d.pushed, u.pushed);
  }

  /** Where no timer is set, other threads leave none exactly if they cancel all
      they add. */
  lemma NoTimerAfter<F>(s: Loop<F>, d: Deeds<F>)
    requires WorldOk(s) && Outside(s, d) && s.tm.order == []
    ensures Did(s, d).tm.order == [] <==> LeaveNoTimer(d.calls)
  {
    hide T.Inv, I.Inv, T.Run, I.Run, T.LegalRun, I.Smooth, Known, T.CallersRun, I.CallersRun, T.Stays;
    T.EmptyAfter(s.tm, d.calls);
  }

  lemma NoEventAfter<F>(s: Loop<F>, d: Deeds<F>)
    requires WorldOk(s) && Outside(s, d) && s.io.pending == 0
    ensures Did(s, d).io.pending == 0 <==> LeaveNoEvent(d.ops)
  {
    hide T.Inv, I.Inv, T.Run, I.Run, T.LegalRun, I.Smooth, Known, T.CallersRun, I.CallersRun, I.LeftIn;
    I.EmptyAfter(s.io, d.ops);
  }

  /** When the idle fiber ends, nothing was queued; no timer was set when it looked
      at them, no event pending when it looked at the count. */
  lemma IdleEnds<F>(s: Loop<F>, me: int, t: Input<F>)
    requires HeadInv(s) && Fair(s, me, t) && s.idle != TERM && Turn(s, me, t).Next? && Turn(s, me, t).s.idle == TERM
    ensures var s0 := Did(s, t.before);
            var o := Turn(s, me, t).s;
            Taken(s, me, t).None? && HeadInv(s0) && IdleFair(s0, t) && o == Checked(s0, t).(idle := TERM) &&
            TimersSeen(s0, t).tm.order == [] && EventsSeen(s0, t).io.pending == 0 &&
            o.stop && o.queue == [] && o.active == 0
  {
    hide HeadInv, InExec, First, Without, Turn, Did, IdleFair, Outside, Proper, Known;
    TurnForm(s, me, t);
    BeforeInv(s, t.before);
    DidFields(s, t.before);
    NotIdleTurn(s, me, t);
    LookedNone(Did(s, t.before), t);
  }

  lemma NotIdleTurn<F>(s: Loop<F>, me: int, t: Input<F>)
    requires Turn(s, me, t).Next? && Turn(s, me, t).s.idle != s.idle
    ensures Taken(s, me, t).None?
  {
    hide InExec, First, Without, Turn, IdleTurn, T.Run, I.Run;
    TurnForm(s, me, t);
  }

  lemma LookedNone<F>(s: Loop<F>, t: Input<F>)
    requires HeadInv(s) && IdleFair(s, t) && s.idle != TERM && t.now > 0
    ensures Stops(s, t) ==> TimersSeen(s, t).tm.order == []
  {
    hide Did, Proper, Known, FibersOk, I.Inv, T.Inv;
    DidOk(s, t.between);
    var tm := Did(s, t.between).tm;
    FrontBelow(tm);
    T.SleepEndsAtFront(tm, t.now);
  }

  lemma FrontBelow(tm: T.State)
    requires T.Inv(tm) && forall a :: a in tm.info ==> tm.info[a].next < U64
    ensures tm.order != [] ==> T.Front(tm).value < U64
  {
    hide T.Sorted;
    if tm.order != [] {
      assert tm.order[0] in tm.order;
    }
  }

  /** When the idle fiber ends, everything is done exactly if other threads left no
      timer after its look at the timers and no event after its look at the
      count. */
  lemma IdleEndsExact<F>(s: Loop<F>, me: int, t: Input<F>)
    requires HeadInv(s) && Fair(s, me, t) && s.idle != TERM && Turn(s, me, t).Next? && Turn(s, me, t).s.idle == TERM
    ensures Quiescent(Turn(s, me, t).s) <==>
              LeaveNoTimer(t.looked.calls + t.counted.calls) && LeaveNoEvent(t.counted.ops)
  {
    hide HeadInv, InExec, First, Without, Turn, Did, Outside, Proper, Known, Fair, WorldOk, LeaveNoTimer, LeaveNoEvent;
    IdleEnds(s, me, t);
    var s0 := Did(s, t.before);
    WorldPart(s0);
    DidFields(s, t.before);
    CheckedOk(s0, t);
    DidTwice(TimersSeen(s0, t), t.looked, t.counted);
    NoTimerAfter(TimersSeen(s0, t), Then(t.looked, t.counted));
    NoEventAfter(EventsSeen(s0, t), t.counted);
  }

  lemma WorldPart<F>(s: Loop<F>)
    requires HeadInv(s)
    ensures WorldOk(s)
  {
  }

  /** The loop ends in a turn that finds nothing to take after the idle fiber. */
  lemma TurnExits<F>(s: Loop<F>, me: int, t: Input<F>)
    ensures Turn(s, me, t).Exits? <==> Taken(s, me, t).None? && s.idle == TERM
    ensures Turn(s, me, t).Exits? ==> Turn(s, me, t).s == Did(Did(s, t.before), t.between)
  {
    hide InExec, First, Without, Turn, Stops, Checked, T.Run, I.Run;
    TurnForm(s, me, t);
  }

  lemma NothingTaken<F>(s: Loop<F>, me: int, t: Input<F>)
    requires s.queue == [] && t.before.pushed == []
    ensures Taken(s, me, t).None?
  {
    hide InExec;
  }

  /** After the idle fiber has ended, whatever was left then: the next turn ends the
      loop with everything done exactly if, since the looks of the idle fiber,
      other threads scheduled nothing, cancelled every timer they added and took
      off every event they registered. */
  lemma ExitExact<F>(s: Loop<F>, me: int, t: Input<F>, u: Input<F>)
    requires HeadInv(s) && Fair(s, me, t) && s.idle != TERM && Turn(s, me, t).Next? && Turn(s, me, t).s.idle == TERM
    requires Fair(Turn(s, me, t).s, me, u)
    ensures var o := Turn(Turn(s, me, t).s, me, u);
            (o.Exits? && Quiescent(o.s)) <==>
              u.before.pushed + u.between.pushed == [] &&
              LeaveNoTimer(t.looked.calls + t.counted.calls + (u.before.calls + u.between.calls)) &&
              LeaveNoEvent(t.counted.ops + (u.before.ops + u.between.ops))
  {
    hide HeadInv, InExec, First, Without, Turn, Did, Proper, Outside, Known, IdleFair, WorldOk, LeaveNoTimer, LeaveNoEvent,
      Quiescent, Taken, Checked, EventsSeen, TimersSeen, Fair;
    IdleEnds(s, me, t);
    var s0, s1 := Did(s, t.before), Turn(s, me, t).s;
    DidFields(s, t.before);
    var o := Turn(s1, me, u);
    TurnExits(s1, me, u);
    if u.before.pushed == [] {
      NothingTaken(s1, me, u);
    }
    if Taken(s1, me, u).None? {
      OutsideTwice(s1, me, u);
      ExitLeaves(s0, s1, t, Then(u.before, u.between));
    } else {
      TakenSomething(s1, me, u);
    }
  }

  lemma OutsideTwice<F>(s: Loop<F>, me: int, u: Input<F>)
    requires Fair(s, me, u) && Taken(s, me, u).None?
    ensures Outside(s, Then(u.before, u.between))
    ensures Did(Did(s, u.before), u.between) == Did(s, Then(u.before, u.between))
  {
    hide Outside, Did, Taken, Proper, Known;
    DidTwice(s, u.before, u.between);
  }

  lemma TakenSomething<F>(s: Loop<F>, me: int, u: Input<F>)
    requires Taken(s, me, u).Some? && s.queue == []
    ensures u.before.pushed != []
  {
    hide InExec;
  }

  lemma ExitLeaves<F>(s0: Loop<F>, s1: Loop<F>, t: Input<F>, d: Deeds<F>)
    requires HeadInv(s0) && IdleFair(s0, t) && s0.idle != TERM && s1 == Checked(s0, t).(idle := TERM)
    requires TimersSeen(s0, t).tm.order == [] && EventsSeen(s0, t).io.pending == 0
    requires s1.stop && s1.queue == [] && s1.active == 0 && Outside(s1, d)
    ensures Quiescent(Did(s1, d)) <==>
              d.pushed == [] && LeaveNoTimer(t.looked.calls + t.counted.calls + d.calls) && LeaveNoEvent(t.counted.ops + d.ops)
  {
    hide HeadInv, Did, Proper, Outside, Known, WorldOk, LeaveNoTimer, LeaveNoEvent, TimersSeen;
    WorldPart(s0);
    CheckedOk(s0, t);
    var seen, counted, checked := TimersSeen(s0, t), EventsSeen(s0, t), Checked(s0, t);
    IdleOnly(checked, d);
    DidTwice(seen, t.looked, t.counted);
    DidTwice(seen, Then(t.looked, t.counted), d);
    NoTimerAfter(seen, Then(Then(t.looked, t.counted), d));
    DidTwice(counted, t.counted, d);
    NoEventAfter(counted, Then(t.counted, d));
    QuietParts(checked, d);
  }

  lemma IdleOnly<F>(s: Loop<F>, d: Deeds<F>)
    ensures Did(s.(idle := TERM), d) == Did(s, d).(idle := TERM)
    ensures Outside(s.(idle := TERM), d) == Outside(s, d)
  {
    hide T.Run, I.Run, Known, T.LegalRun, I.Smooth;
  }

  lemma QuietParts<F>(s: Loop<F>, d: Deeds<F>)
    requires s.stop && s.queue == [] && s.active == 0
    ensures Quiescent(Did(s, d)) <==> d.pushed == [] && Did(s, d).tm.order == [] && Did(s, d).io.pending == 0
  {
    hide T.Run, I.Run;
    assert s.queue + d.pushed == d.pushed;
  }

  /** The same from a state in which everything is done. */
  lemma TermExact<F>(s: Loop<F>, me: int, u: Input<F>)
    requires HeadInv(s) && Fair(s, me, u) && s.idle == TERM && Quiescent(s)
    ensures var o := Turn(s, me, u);
            (o.Exits? && Quiescent(o.s)) <==>
              u.before.pushed + u.between.pushed == [] &&
              LeaveNoTimer(u.before.calls + u.between.calls) && LeaveNoEvent(u.before.ops + u.between.ops)
  {
    hide HeadInv, InExec, First, Without, Turn, Did, Proper, Outside, Known, IdleFair, WorldOk, LeaveNoTimer, LeaveNoEvent,
      Taken, Fair;
    TurnExits(s, me, u);
    WorldPart(s);
    if u.before.pushed == [] {
      NothingTaken(s, me, u);
    }
    if Taken(s, me, u).None? {
      OutsideTwice(s, me, u);
      var d := Then(u.before, u.between);
      NoTimerAfter(s, d);
      NoEventAfter(s, d);
      QuietParts(s, d);
    } else {
      TakenSomething(s, me, u);
    }
  }

  /** Since the idle fiber looked, no other thread schedules anything, or leaves a
      timer or an event behind. */
  ghost predicate Silent<F>(s: Loop<F>, me: int, ts: seq<Input<F>>)
    decreases |ts|
  {
    ts != [] ==>
      var (t, o) := (ts[0], Turn(s, me, ts[0]));
      (s.idle == TERM ==>
         t.before.pushed + t.between.pushed == [] &&
         LeaveNoTimer(t.before.calls + t.between.calls) && LeaveNoEvent(t.before.ops + t.between.ops)) &&
      (s.idle != TERM && o.Next? && o.s.idle == TERM ==>
         LeaveNoTimer(t.looked.calls + t.counted.calls) && LeaveNoEvent(t.counted.ops)) &&
      (o.Next? ==> Silent(o.s, me, ts[1..]))
  }

  /** The loop ends only when a stop was requested, no timer is set, no event is
      pending and the queue is empty, if other threads are silent in that sense. */
  lemma {:induction false} QuietExit<F>(s: Loop<F>, me: int, ts: seq<Input<F>>)
    requires HeadInv(s) && FairRun(s, me, ts) && Silent(s, me, ts)
    requires s.idle == TERM ==> Quiescent(s)
    ensures var o := Run(s, me, ts); o.Exits? ==> Quiescent(o.s)
    decreases |ts|
  {
    hide Turn, Quiescent, HeadInv, Fair, Tame, KeptReady, TakesCallback, LeaveNoTimer, LeaveNoEvent;
    if ts != [] {
      TurnBase(s, me, ts[0]);
      if s.idle == TERM {
        TermExact(s, me, ts[0]);
      } else {
        TurnExits(s, me, ts[0]);
        if Turn(s, me, ts[0]).Next? {
          if Turn(s, me, ts[0]).s.idle == TERM {
            IdleEndsExact(s, me, ts[0]);
          }
          QuietExit(Turn(s, me, ts[0]).s, me, ts[1..]);
        }
      }
    }
  }

  lemma RunCons<F>(s: Loop<F>, me: int, t: Input<F>, ts: seq<Input<F>>)
    ensures Run(s, me, [t] + ts) == if Turn(s, me, t).Next? then Run(Turn(s, me, t).s, me, ts) else Turn(s, me, t)
    ensures Fair(s, me, t) && Tame(s, me, t) && (Turn(s, me, t).Next? ==> GoodRun(Turn(s, me, t).s, me, ts)) ==>
              GoodRun(s, me, [t] + ts)
  {
    hide Turn, Fair, Tame;
    assert ([t] + ts)[1..] == ts;
  }

  const LATE_TIMER: T.Call := T.Call(T.Add(0, 50, Some(0), false), 1)

  function Ended(): Loop<nat> {
    NewLoop([], TERM, true)
  }

  /** A stop was requested and nothing is left: the idle fiber ends. */
  lemma FirstEnds()
    ensures var s: Loop<nat> := NewLoop([], HOLD, true);
            var t: Input<nat> := Quietly(Segment(Returns, Nothing()), 7);
            LoopInv(s) && Fair(s, 3, t) && Tame(s, 3, t) && Turn(s, 3, t) == Next(Ended())
  {
    hide I.Initial, LoopInv;
    var s: Loop<nat> := NewLoop([], HOLD, true);
    var t: Input<nat> := Quietly(Segment(Returns, Nothing()), 7);
    NewLoopInv<nat>([], HOLD, true);
    NoPending();
    assert s.queue + [] == [];
    assert Did(s, Nothing()) == s;
    assert Taken(s, 3, t).None?;
    assert TimersSeen(s, t) == s && EventsSeen(s, t) == s && Checked(s, t) == s;
  }

  lemma NoPending()
    ensures I.Initial().pending == 0
  {
  }

  /** Nothing is scheduled by anyone, yet the loop ends with a timer set: another
      thread adds one after the idle fiber has ended. */
  lemma TimerOnlyExit()
    ensures var s: Loop<nat> := NewLoop([], HOLD, true);
            var t: Input<nat> := Quietly(Segment(Returns, Nothing()), 7);
            var u := t.(between := Nothing().(calls := [LATE_TIMER]));
            var o := Run(s, 3, [t] + ([u] + []));
            LoopInv(s) && GoodRun(s, 3, [t] + ([u] + [])) && o.Exits? && o.s.tm.order == [0]
  {
    hide Run, GoodRun, I.Initial, LoopInv;
    FirstEnds();
    var s: Loop<nat> := NewLoop([], HOLD, true);
    var t: Input<nat> := Quietly(Segment(Returns, Nothing()), 7);
    var u := t.(between := Nothing().(calls := [LATE_TIMER]));
    EndedTurn(u);
    hide Turn, Fair, Tame;
    RunCons(Ended(), 3, u, []);
    RunCons(s, 3, t, [u] + []);
    NoTurns(Turn(Ended(), 3, u).s);
  }

  lemma NoTurns<F>(s: Loop<F>)
    ensures GoodRun(s, 3, []) && Run(s, 3, []) == Next(s)
  {
  }

  lemma EndedTurn(u: Input<nat>)
    requires u == Quietly(Segment(Returns, Nothing()), 7).(between := Nothing().(calls := [LATE_TIMER]))
    ensures var o := Turn(Ended(), 3, u);
            Fair(Ended(), 3, u) && Tame(Ended(), 3, u) && o.Exits? && o.s.tm.order == [0]
  {
    hide I.Initial;
    var s := Ended();
    assert s.queue + [] == [];
    assert Did(s, Nothing()) == s;
    TurnExits(s, 3, u);
    LateTimer();
  }

  lemma LateTimer()
    ensures var tm := T.State(map[], [], false, 0, {});
            T.LegalRun(tm, [LATE_TIMER]) && T.CallersRun([LATE_TIMER]) && T.Run(tm, [LATE_TIMER]).order == [0]
  {
    var tm := T.State(map[], [], false, 0, {});
    assert [LATE_TIMER][1..] == [];
    assert T.Insert([], map[0 := T.Rec(false, 50, T.Deadline(1, 50), Some(0))], 0).0 == [0];
  }

  /** The same when a callback that comes after the idle fiber has ended sets the
      timer. */
  lemma UnquietExit()
    ensures var s: Loop<nat> := NewLoop([], HOLD, true);
            var t: Input<nat> := Quietly(Segment(Returns, Nothing()), 7);
            var late := Quietly(Segment(Returns, Nothing().(calls := [LATE_TIMER])), 7).(
                          before := Nothing().(pushed := [Entry(CallbackJob(0), ANY)]));
            var last: Input<nat> := Quietly(Segment(Returns, Nothing()), 8);
            var o := Run(s, 3, [t] + ([late] + ([last] + [])));
            LoopInv(s) && GoodRun(s, 3, [t] + ([late] + ([last] + []))) && o.Exits? && o.s.tm.order == [0]
  {
    hide Run, GoodRun, I.Initial, LoopInv;
    FirstEnds();
    var s: Loop<nat> := NewLoop([], HOLD, true);
    var t: Input<nat> := Quietly(Segment(Returns, Nothing()), 7);
    var late := Quietly(Segment(Returns, Nothing().(calls := [LATE_TIMER])), 7).(
                  before := Nothing().(pushed := [Entry(CallbackJob(0), ANY)]));
    var last: Input<nat> := Quietly(Segment(Returns, Nothing()), 8);
    LateTurn(late);
    var s2 := Turn(Ended(), 3, late).s;
    LastTurn(s2, last);
    hide Turn, Fair, Tame;
    NoTurns(Turn(s2, 3, last).s);
    RunCons(s2, 3, last, []);
    RunCons(Ended(), 3, late, [last] + []);
    RunCons(s, 3, t, [late] + ([last] + []));
  }

  lemma LateTurn(late: Input<nat>)
    requires late == Quietly(Segment(Returns, Nothing().(calls := [LATE_TIMER])), 7).(
                       before := Nothing().(pushed := [Entry(CallbackJob(0), ANY)]))
    ensures var o := Turn(Ended(), 3, late);
            Fair(Ended(), 3, late) && Tame(Ended(), 3, late) && o.Next? && o.s.queue == [] && o.s.idle == TERM &&
            o.s.tm.order == [0] && o.s.fibers.Keys == {7}
  {
    hide I.Initial, T.Step, T.Run, T.LegalRun, IdleTurn, Turn, Did;
    var e: Entry<nat> := Entry(CallbackJob(0), ANY);
    var s := Ended();
    assert s.queue + [e] == [e] && Without([e], 0) == [];
    assert First([e], 3, {}) == 0;
    DidPushing(s, [e]);
    assert InExec(s.fibers) == {};
    TurnForm(s, 3, late);
    LateTimer();
    LateDid(TookAt(Did(s, late.before), 0).(cb := Some(7), fibers := map[7 := FiberVal(INIT, Some(0))]));
  }

  lemma LateDid(s: Loop<nat>)
    ensures var s' := Did(s, Nothing().(calls := [LATE_TIMER]));
            s' == s.(tm := T.Run(s.tm, [LATE_TIMER]))
    ensures Proper(s, Nothing().(calls := [LATE_TIMER])) == T.LegalRun(s.tm, [LATE_TIMER])
  {
    hide T.Run, T.LegalRun;
    assert s.queue + [] == s.queue;
  }

  lemma LastTurn(s: Loop<nat>, last: Input<nat>)
    requires s.queue == [] && s.idle == TERM && s.tm.order == [0] && s.fibers.Keys == {7}
    requires last == Quietly(Segment(Returns, Nothing()), 8)
    ensures var o := Turn(s, 3, last); Fair(s, 3, last) && Tame(s, 3, last) && o.Exits? && o.s.tm.order == [0]
  {
    assert s.queue + [] == [];
    assert Did(s, Nothing()) == s;
    TurnExits(s, 3, last);
  }
}
