// What one turn of a worker's loop leaves behind: the queue, the fibers, the fiber
// kept for callbacks, and the calls that were made, branch by branch.

module WorkerTurns {
  import opened Common
  import opened Fibers
  import opened SchedSpec
  import opened WorkerSpec
  import T = TimerSpec
  import I = IoSpec

  /** The queue as the turn scans it, and what is left without the entry taken. */
  function Scanned<F>(s: Loop<F>, t: Input<F>): seq<Entry<F>> {
    s.queue + t.before.pushed
  }

  function Running<F(==)>(s: Loop<F>): set<F> {
    set f | f in s.fibers && s.fibers[f].state == EXEC
  }

  function Left<F(==)>(s: Loop<F>, me: int, t: Input<F>): seq<Entry<F>>
    requires First(Scanned(s, t), me, Running(s)) < |Scanned(s, t)|
  {
    var i := First(Scanned(s, t), me, Running(s));
    Scanned(s, t)[..i] + Scanned(s, t)[i + 1..]
  }

  /** The turn takes the first entry that the worker may take. */
  lemma TakenMeans<F>(s: Loop<F>, me: int, t: Input<F>)
    ensures var (q, i) := (Scanned(s, t), First(Scanned(s, t), me, Running(s)));
            Taken(s, me, t) == (if i < |q| then Some(q[i]) else None) && Running(s) == InExec(s.fibers)
  {
    assert Running(s) == InExec(s.fibers);
  }

  /** The state in which the entry's job begins. */
  lemma TookLeft<F>(s: Loop<F>, me: int, t: Input<F>)
    requires Taken(s, me, t).Some?
    ensures First(Scanned(s, t), me, Running(s)) < |Scanned(s, t)|
    ensures var s1 := Did(s, t.before);
            var i := First(s1.queue, me, InExec(s.fibers));
            i < |s1.queue| &&
            TookAt(s1, i) == s.(queue := Left(s, me, t), active := s.active + 1, stop := s.stop || t.before.stop,
                                tm := T.Run(s.tm, t.before.calls), io := I.Run(s.io, t.before.ops))
  {
    hide First, InExec, Running, T.Run, I.Run;
    TakenMeans(s, me, t);
  }

  /** The calls of other threads before the scan and of the code that ran. */
  predicate CallsMade<F(==)>(s: Loop<F>, o: Loop<F>, d: Deeds<F>, g: Deeds<F>) {
    && o.stop == (s.stop || d.stop || g.stop)
    && o.tm == T.Run(T.Run(s.tm, d.calls), g.calls)
    && o.io == I.Run(I.Run(s.io, d.ops), g.ops)
  }

  /** No counter and no part of the idle fiber changes. */
  predicate SameCounts<F(==)>(s: Loop<F>, o: Loop<F>) {
    o.active == s.active && o.idling == s.idling && o.idle == s.idle
  }

  /** How a stretch leaves the fiber that ran it.  One that has no callback to start
      with throws. */
  predicate LeftAs(v: FiberVal, end: End, v': FiberVal) {
    if v.state == INIT && v.cb.None? then v'.state == EXCEPT
    else
      && (end == Returns ==> v'.state == TERM && v'.cb == None)
      && (end == Throws ==> v'.state == EXCEPT)
      && (end == YieldsReady ==> v'.state == READY)
      && (end == YieldsHold ==> v'.state == HOLD)
      && (end != Returns ==> v'.cb == v.cb)
  }

  /** The code that ran queued `pushed`; the fiber is queued behind that, for any
      thread, exactly if its stretch ended READY. */
  predicate QueuedAgain<F(==)>(left: seq<Entry<F>>, pushed: seq<Entry<F>>, f: F, ready: bool, after: seq<Entry<F>>) {
    after == left + pushed + if ready then [Entry(FiberJob(f), -1)] else []
  }

  /** A turn that takes a fiber that is over drops its entry and runs nothing. */
  lemma OverTurn<F>(s: Loop<F>, me: int, t: Input<F>, f: F)
    requires Taken(s, me, t).Some? && Taken(s, me, t).value.job == FiberJob(f)
    requires f in s.fibers && (s.fibers[f].state == TERM || s.fibers[f].state == EXCEPT)
    ensures First(Scanned(s, t), me, Running(s)) < |Scanned(s, t)|
    ensures var o := Turn(s, me, t);
            o.Next? && SameCounts(s, o.s) && o.s.queue == Left(s, me, t) && o.s.fibers == s.fibers && o.s.cb == s.cb &&
            CallsMade(s, o.s, t.before, Nothing())
  {
    hide First, InExec, Running, Left, Scanned, IdleTurn, CallbackTurn, T.Run, I.Run, Turn, TookAt, Taken;
    TurnForm(s, me, t);
    TookLeft(s, me, t);
    NothingRun(s, t);
  }

  lemma NothingRun<F>(s: Loop<F>, t: Input<F>)
    ensures T.Run(T.Run(s.tm, t.before.calls), []) == T.Run(s.tm, t.before.calls)
    ensures I.Run(I.Run(s.io, t.before.ops), []) == I.Run(s.io, t.before.ops)
  {
  }

  /** A turn that takes any other fiber runs a stretch of it: its new state is as the
      stretch ended, no other fiber changes, and it is queued again exactly if it
      yielded READY. */
  lemma FiberTurnMeans<F>(s: Loop<F>, me: int, t: Input<F>, f: F)
    requires Taken(s, me, t).Some? && Taken(s, me, t).value.job == FiberJob(f)
    requires f in s.fibers && s.fibers[f].state != TERM && s.fibers[f].state != EXCEPT
    ensures First(Scanned(s, t), me, Running(s)) < |Scanned(s, t)|
    ensures var (o, g) := (Turn(s, me, t), t.segment);
            && o.Next? && SameCounts(s, o.s) && o.s.cb == s.cb && CallsMade(s, o.s, t.before, g.deeds)
            && f in o.s.fibers && LeftAs(s.fibers[f], g.end, o.s.fibers[f]) && o.s.fibers == s.fibers[f := o.s.fibers[f]]
            && QueuedAgain(Left(s, me, t), g.deeds.pushed, f,
                           g.end == YieldsReady && (s.fibers[f].state != INIT || s.fibers[f].cb.Some?), o.s.queue)
  {
    hide First, InExec, Running, Left, Scanned, IdleTurn, CallbackTurn, T.Run, I.Run, Turn, TookAt, Taken;
    TurnForm(s, me, t);
    TookLeft(s, me, t);
    TakenMayRun(s, me, t);
    AppendNothing(Left(s, me, t) + t.segment.deeds.pushed);
  }

  lemma AppendNothing<A>(q: seq<A>)
    ensures q + [] == q
  {
  }

  lemma TakenMayRun<F>(s: Loop<F>, me: int, t: Input<F>)
    ensures var e := Taken(s, me, t);
            e.Some? && e.value.job.FiberJob? && e.value.job.f in s.fibers ==> s.fibers[e.value.job.f].state != EXEC
  {
    FirstIs(s.queue + t.before.pushed, me, InExec(s.fibers));
  }

  /** A turn that takes a callback runs it on the fiber kept, or on the spare one if
      none is kept.  A fiber whose callback returned is kept with nothing to run; one
      that yielded READY is kept and queued as well; one that yielded HOLD is kept no
      longer.  No other fiber changes. */
  lemma CallbackTurnMeans<F>(s: Loop<F>, me: int, t: Input<F>)
    requires Taken(s, me, t).Some? && Taken(s, me, t).value.job.CallbackJob? && !Turn(s, me, t).Aborts?
    ensures First(Scanned(s, t), me, Running(s)) < |Scanned(s, t)|
    ensures var (o, g) := (Turn(s, me, t), t.segment);
            var (f, cb) := (if s.cb.Some? then s.cb.value else t.spare, Taken(s, me, t).value.job.cb);
            && o.Next? && SameCounts(s, o.s) && CallsMade(s, o.s, t.before, g.deeds) && g.end != Throws
            && QueuedAgain(Left(s, me, t), g.deeds.pushed, f, g.end == YieldsReady, o.s.queue)
            && o.s.cb == (if g.end == YieldsHold then None else Some(f))
            && o.s.fibers == s.fibers[f := if g.end == Returns then FiberVal(INIT, None)
                                           else FiberVal(if g.end == YieldsReady then READY else HOLD, Some(cb))]
  {
    hide First, InExec, Running, Left, Scanned, IdleTurn, FiberTurn, T.Run, I.Run, Turn, TookAt, Taken;
    TurnForm(s, me, t);
    TookLeft(s, me, t);
    AppendNothing(Left(s, me, t) + t.segment.deeds.pushed);
  }

  /** The idle fiber finds everything done: no timer at its look, no event at the
      next, a stop and an empty queue at the last. */
  ghost predicate FoundDone<F>(s: Loop<F>, t: Input<F>) {
    && T.Run(T.Run(s.tm, t.before.calls), t.between.calls).order == []
    && I.Run(I.Run(I.Run(s.io, t.before.ops), t.between.ops), t.looked.ops).pending == 0
    && (s.stop || t.before.stop || t.between.stop || t.looked.stop || t.counted.stop)
    && t.before.pushed + t.between.pushed + t.looked.pushed + t.counted.pushed == [] && s.queue == []
    && s.active == 0
  }

  /** A turn that finds nothing to take ends the loop if the idle fiber is over; else
      that fiber ends exactly if it finds everything done, and otherwise runs on and
      stays HOLD.  The look at the timers takes the wake-up flag away. */
  lemma IdleTurnMeans<F>(s: Loop<F>, me: int, t: Input<F>)
    requires HeadInv(s) && Fair(s, me, t) && Taken(s, me, t).None?
    ensures var o := Turn(s, me, t);
            && (o.Exits? <==> s.idle == TERM) && !o.Aborts?
            && o.s.fibers == s.fibers && o.s.cb == s.cb && o.s.active == s.active && o.s.idling == s.idling
            && o.s.queue == (if o.Exits? then Scanned(s, t) + t.between.pushed
                             else Scanned(s, t) + t.between.pushed + t.looked.pushed + t.counted.pushed +
                                  if FoundDone(s, t) then [] else t.segment.deeds.pushed)
            && (o.Next? ==> o.s.idle == if FoundDone(s, t) then TERM else HOLD)
            && IdleCalls(s, t, o)
  {
    hide InExec, First, Without, Turn, Outside, Proper, Known, Resettable, WorldOk, Checked, T.DoGetNextTimer, T.Run, I.Run;
    TurnForm(s, me, t);
    BeforeInv(s, t.before);
    var s1 := Did(s, t.before);
    DidFields(s, t.before);
    DidFields(s1, t.between);
    CheckedFields(s1, t);
    DidFields(Checked(s1, t), t.segment.deeds);
    AppendNothing(Checked(s1, t).queue);
    if s.idle != TERM {
      StopsMeans(s1, t);
      FoundForm(s, t);
      IdleCallsForm(s1, t);
      hide Stops;
    }
  }

  /** The look at the timers takes the wake-up flag away, and the code of the idle
      fiber runs unless it ended. */
  ghost predicate IdleCalls<F>(s: Loop<F>, t: Input<F>, o: Outcome<F>)
    requires !o.Aborts?
  {
    var tm, io := T.Run(T.Run(s.tm, t.before.calls), t.between.calls), I.Run(I.Run(s.io, t.before.ops), t.between.ops);
    if o.Exits? then
      o.s.tm == tm && o.s.io == io && o.s.stop == (s.stop || t.before.stop || t.between.stop)
    else
      var d := if FoundDone(s, t) then Nothing() else t.segment.deeds;
      && o.s.tm == T.Run(T.Run(T.Run(tm.(tickled := false), t.looked.calls), t.counted.calls), d.calls)
      && o.s.io == I.Run(I.Run(I.Run(io, t.looked.ops), t.counted.ops), d.ops)
      && o.s.stop == (s.stop || t.before.stop || t.between.stop || t.looked.stop || t.counted.stop || d.stop)
  }

  lemma IdleCallsForm<F>(s: Loop<F>, t: Input<F>)
    ensures var (tm, io, o) := (T.Run(s.tm, t.between.calls), I.Run(s.io, t.between.ops), Checked(s, t));
            && o.tm == T.Run(T.Run(tm.(tickled := false), t.looked.calls), t.counted.calls)
            && o.io == I.Run(I.Run(io, t.looked.ops), t.counted.ops)
            && o.stop == (s.stop || t.between.stop || t.looked.stop || t.counted.stop)
            && T.Run(o.tm, []) == o.tm && I.Run(o.io, []) == o.io
  {
  }

  /** The three looks, from the state in which the idle fiber is resumed. */
  lemma StopsMeans<F>(s: Loop<F>, t: Input<F>)
    requires HeadInv(s) && IdleFair(s, t) && s.idle != TERM && t.now > 0
    ensures Stops(s, t) <==>
              Did(s, t.between).tm.order == [] && EventsSeen(s, t).io.pending == 0 &&
              Checked(s, t).stop && Checked(s, t).queue == [] && s.active == 0
  {
    hide Did, Proper, Known, FibersOk, I.Inv, T.Inv, Checked, EventsSeen;
    DidOk(s, t.between);
    CheckedFields(s, t);
    var tm := Did(s, t.between).tm;
    FrontBelow(tm);
    T.SleepEndsAtFront(tm, t.now);
  }

  lemma FoundForm<F>(s: Loop<F>, t: Input<F>)
    ensures var s1 := Did(s, t.before);
            FoundDone(s, t) <==>
              Did(s1, t.between).tm.order == [] && EventsSeen(s1, t).io.pending == 0 &&
              Checked(s1, t).stop && Checked(s1, t).queue == [] && s1.active == 0
  {
    hide T.Run, I.Run, T.DoGetNextTimer;
  }

  // ------------------------------------------------------- nobody READY is lost

  ghost predicate Queued<F>(q: seq<Entry<F>>, f: F) {
    exists i :: 0 <= i < |q| && q[i].job == FiberJob(f)
  }

  /** Every fiber that yielded READY is in the queue. */
  ghost predicate ReadyQueued<F>(s: Loop<F>) {
    forall f :: f in s.fibers && s.fibers[f].state == READY ==> Queued(s.queue, f)
  }

  lemma QueuedBehind<F>(p: seq<Entry<F>>, q: seq<Entry<F>>, f: F)
    requires Queued(p, f) || Queued(q, f)
    ensures Queued(p + q, f)
  {
    if Queued(q, f) {
      var i :| 0 <= i < |q| && q[i].job == FiberJob(f);
      assert (p + q)[|p| + i] == q[i];
    } else {
      var i :| 0 <= i < |p| && p[i].job == FiberJob(f);
      assert (p + q)[i] == p[i];
    }
  }

  lemma StillLeft<F>(s: Loop<F>, me: int, t: Input<F>, f: F)
    requires Taken(s, me, t).Some? && Taken(s, me, t).value.job != FiberJob(f) && Queued(s.queue, f)
    ensures First(Scanned(s, t), me, Running(s)) < |Scanned(s, t)| && Queued(Left(s, me, t), f)
  {
    hide First, Running, Taken;
    TakenMeans(s, me, t);
    QueuedBehind(s.queue, t.before.pushed, f);
    var q, i := Scanned(s, t), First(Scanned(s, t), me, Running(s));
    var j :| 0 <= j < |q| && q[j].job == FiberJob(f);
    assert Left(s, me, t)[if j < i then j else j - 1] == q[j];
  }

  lemma TakenKnown<F>(s: Loop<F>, me: int, t: Input<F>)
    requires HeadInv(s) && Fair(s, me, t)
    ensures var e := Taken(s, me, t); e.Some? && e.value.job.FiberJob? ==> e.value.job.f in s.fibers
  {
    hide Running, WorldOk, Proper, InExec;
    KnownJoin(s.queue, t.before.pushed, s.fibers.Keys);
  }

  /** A turn that fails no assertion loses no fiber that is READY. */
  lemma TurnKeepsReady<F>(s: Loop<F>, me: int, t: Input<F>)
    requires HeadInv(s) && Fair(s, me, t) && ReadyQueued(s) && !Turn(s, me, t).Aborts?
    ensures ReadyQueued(Turn(s, me, t).s)
  {
    hide HeadInv, Fair, Turn, Taken, Left, First, Running, CallsMade, IdleCalls, FoundDone, Queued, LeftAs;
    var o := Turn(s, me, t);
    TakenKnown(s, me, t);
    if Taken(s, me, t).None? {
      IdleTurnMeans(s, me, t);
    } else if Taken(s, me, t).value.job.CallbackJob? {
      CallbackTurnMeans(s, me, t);
    } else if Over(s.fibers[Taken(s, me, t).value.job.f].state) {
      OverTurn(s, me, t, Taken(s, me, t).value.job.f);
    } else {
      FiberTurnMeans(s, me, t, Taken(s, me, t).value.job.f);
    }
    forall f | f in o.s.fibers && o.s.fibers[f].state == READY
      ensures Queued(o.s.queue, f)
    {
      if Taken(s, me, t).None? {
        QueuedBehind(s.queue, t.before.pushed, f);
        QueuedBehind(Scanned(s, t), t.between.pushed, f);
        QueuedBehind(Scanned(s, t) + t.between.pushed, t.looked.pushed, f);
        QueuedBehind(Scanned(s, t) + t.between.pushed + t.looked.pushed, t.counted.pushed, f);
        QueuedBehind(Scanned(s, t) + t.between.pushed + t.looked.pushed + t.counted.pushed,
                     if FoundDone(s, t) then [] else t.segment.deeds.pushed, f);
      } else {
        ReadyAfterTask(s, me, t, f);
      }
    }
  }

  /** Anyone who is READY after the turn was queued before it and not taken, or is
      queued again. */
  lemma ReadyAfterTask<F>(s: Loop<F>, me: int, t: Input<F>, f: F)
    requires HeadInv(s) && Fair(s, me, t) && ReadyQueued(s) && !Turn(s, me, t).Aborts? && Taken(s, me, t).Some?
    requires var o := Turn(s, me, t).s; f in o.fibers && o.fibers[f].state == READY
    ensures Queued(Turn(s, me, t).s.queue, f)
  {
    hide HeadInv, Fair, Turn, Taken, Left, First, Running, CallsMade, Queued;
    TakenKnown(s, me, t);
    var job, o := Taken(s, me, t).value.job, Turn(s, me, t).s;
    TakenMeans(s, me, t);
    var again: seq<Entry<F>> := [];
    if job.CallbackJob? {
      CallbackTurnMeans(s, me, t);
      again := if t.segment.end == YieldsReady then [Entry(FiberJob(if s.cb.Some? then s.cb.value else t.spare), -1)] else [];
    } else if Over(s.fibers[job.f].state) {
      OverTurn(s, me, t, job.f);
      QueueOnly(o.queue, Left(s, me, t));
    } else {
      FiberTurnMeans(s, me, t, job.f);
      again := if o.fibers[job.f].state == READY then [Entry(FiberJob(job.f), -1)] else [];
    }
    var pushed := if job.FiberJob? && Over(s.fibers[job.f].state) then [] else t.segment.deeds.pushed;
    assert o.queue == Left(s, me, t) + pushed + again;
    if again != [] && again[0].job == FiberJob(f) {
      QueuedOne(f);
    } else {
      assert f in s.fibers && s.fibers[f].state == READY;
      StillLeft(s, me, t, f);
      QueuedBehind(Left(s, me, t), pushed, f);
    }
    QueuedBehind(Left(s, me, t) + pushed, again, f);
  }

  lemma QueueOnly<A>(q: seq<A>, left: seq<A>)
    requires q == left
    ensures q == left + [] + []
  {
  }

  lemma QueuedOne<F>(f: F)
    ensures Queued([Entry(FiberJob(f), -1)], f)
  {
    assert [Entry(FiberJob(f), -1)][0].job == FiberJob(f);
  }

  /** On every run that fails no assertion, each fiber that yielded READY is in the
      queue at every head. */
  lemma {:induction false} ReadyNeverLost<F>(s: Loop<F>, me: int, ts: seq<Input<F>>)
    requires HeadInv(s) && FairRun(s, me, ts) && ReadyQueued(s) && !Run(s, me, ts).Aborts?
    ensures ReadyQueued(Run(s, me, ts).s)
    decreases |ts|
  {
    hide HeadInv, Fair, Turn, ReadyQueued, Tame, KeptReady, TakesCallback;
    if ts != [] {
      TurnBase(s, me, ts[0]);
      TurnKeepsReady(s, me, ts[0]);
      if Turn(s, me, ts[0]).Next? {
        ReadyNeverLost(Turn(s, me, ts[0]).s, me, ts[1..]);
      }
    }
  }
}
