// The loop of a worker is a sequence of moves of the pool: what is proved about
// the counters and the entries of the pool holds of the loop.

module PoolRuns {
  import opened Common
  import opened Fibers
  import opened SchedSpec
  import W = WorkerSpec

  /** The pool and the loop agree on the queue and the counters, and the worker is
      where it should be. */
  predicate Matches<F(==)>(p: Pool<F>, s: W.Loop<F>, me: int, pc: Pc<F>) {
    p.queue == s.queue && p.active == s.active && p.idle == s.idling && me in p.pcs && p.pcs[me] == pc
  }

  /** Only worker `me` moves, and anyone schedules. */
  predicate Own<F>(ms: seq<Move<F>>, me: int) {
    forall i :: 0 <= i < |ms| ==> ms[i].Schedule? || ms[i].w == me
  }

  /** Some moves of the worker, and what is scheduled meanwhile, lead from one pool
      to the other. */
  ghost predicate Leads<F(!new)>(p: Pool<F>, p': Pool<F>, me: int) {
    exists ms: seq<Move<F>> :: AbleRun(p, ms) && Own(ms, me) && PoolRun(p, ms) == p'
  }

  lemma Stays<F(!new)>(p: Pool<F>, me: int)
    ensures Leads(p, p, me)
  {
    assert AbleRun(p, []) && Own<F>([], me) && PoolRun(p, []) == p;
  }

  lemma {:induction false} Joined<F>(p: Pool<F>, a: seq<Move<F>>, b: seq<Move<F>>)
    requires AbleRun(p, a) && AbleRun(PoolRun(p, a), b)
    ensures AbleRun(p, a + b) && PoolRun(p, a + b) == PoolRun(PoolRun(p, a), b)
    decreases |a|
  {
    hide Able, MoveOf;
    if a == [] {
      assert a + b == b;
    } else {
      assert (a + b)[1..] == a[1..] + b;
      Joined(MoveOf(p, a[0]), a[1..], b);
    }
  }

  lemma LeadsOn<F(!new)>(p: Pool<F>, q: Pool<F>, r: Pool<F>, me: int)
    requires Leads(p, q, me) && Leads(q, r, me)
    ensures Leads(p, r, me)
  {
    var a :| AbleRun(p, a) && Own(a, me) && PoolRun(p, a) == q;
    var b :| AbleRun(q, b) && Own(b, me) && PoolRun(q, b) == r;
    Joined(p, a, b);
    assert Own(a + b, me);
  }

  /** One more move. */
  lemma Then<F(!new)>(p: Pool<F>, q: Pool<F>, m: Move<F>, me: int)
    requires Leads(p, q, me) && Able(q, m) && (m.Schedule? || m.w == me)
    ensures Leads(p, MoveOf(q, m), me)
  {
    hide Able, MoveOf;
    PoolCons(q, m, []);
    assert [m] + [] == [m];
    assert AbleRun(q, [m]) && Own([m], me) && PoolRun(q, [m]) == MoveOf(q, m);
    LeadsOn(p, q, MoveOf(q, m), me);
  }

  /** The pool after a list of entries was queued, by whomever. */
  function Pushed<F>(p: Pool<F>, q: seq<Entry<F>>): Pool<F> {
    p.(queue := p.queue + q, pushed := p.pushed + q)
  }

  lemma {:induction false} Pushes<F(!new)>(p: Pool<F>, q: seq<Entry<F>>, me: int)
    ensures Leads(p, Pushed(p, q), me)
    decreases |q|
  {
    if q == [] {
      assert p.queue + q == p.queue && p.pushed + q == p.pushed;
      Stays(p, me);
    } else {
      var init, last := q[..|q| - 1], q[|q| - 1];
      assert q == init + [last];
      Pushes(p, init, me);
      Then(p, Pushed(p, init), Schedule(last), me);
      ConcatAssociates(p.queue, init, [last]);
      ConcatAssociates(p.pushed, init, [last]);
      hide Leads;
    }
  }

  lemma AlsoPushes<F(!new)>(p: Pool<F>, q: Pool<F>, d: seq<Entry<F>>, me: int)
    requires Leads(p, q, me)
    ensures Leads(p, Pushed(q, d), me)
  {
    hide Leads;
    Pushes(q, d, me);
    LeadsOn(p, q, Pushed(q, d), me);
  }

  // ---------------------------------------------------------------- one turn

  /** The fiber, if it is READY. */
  function IfReady<F(==)>(s: W.Loop<F>, f: F): seq<F> {
    if f in s.fibers && s.fibers[f].state == READY then [f] else []
  }

  /** The fiber that the turn ran, if it is READY afterwards. */
  function Yields<F(==)>(s: W.Loop<F>, me: int, t: W.Input<F>): seq<F>
    requires !W.Turn(s, me, t).Aborts?
  {
    var (e, o) := (W.Taken(s, me, t), W.Turn(s, me, t).s);
    if e.None? then []
    else if e.value.job.FiberJob? then IfReady(o, e.value.job.f)
    else IfReady(o, if s.cb.Some? then s.cb.value else t.spare)
  }

  /** The entry that the turn takes. */
  function Takes<F(==)>(s: W.Loop<F>, me: int, t: W.Input<F>): seq<Entry<F>> {
    if W.Taken(s, me, t).Some? then [W.Taken(s, me, t).value] else []
  }

  /** Where the worker is after a stretch that left the fiber in this state. */
  lemma AfterStretch<F(!new)>(p: Pool<F>, q: Pool<F>, me: int, f: F, ready: bool)
    requires Leads(p, q, me) && me in q.pcs && q.pcs[me].Executing?
    ensures exists r :: Leads(p, r, me) && r.active == q.active - 1 && r.idle == q.idle && me in r.pcs && r.pcs[me] == AtHead &&
              r.taken == q.taken && r.yielded == q.yielded + (if ready then [f] else []) &&
              r.queue == q.queue + if ready then [Entry(FiberJob(f), ANY)] else []
  {
    hide Leads;
    var again := if ready then Some(f) else None;
    var r := MoveOf(q, Back(me, again));
    Then(p, q, Back(me, again), me);
    if ready {
      Then(p, r, Requeue(me), me);
      r := MoveOf(r, Requeue(me));
    }
    assert Leads(p, r, me) && r.active == q.active - 1 && r.idle == q.idle && me in r.pcs && r.pcs[me] == AtHead;
  }

  /** The take of a turn, as a move. */
  lemma TakeMatches<F(!new)>(p: Pool<F>, s: W.Loop<F>, me: int, exec: set<F>)
    requires Matches(p, s, me, AtHead)
    ensures Able(p, TakeTask(me, exec))
    ensures var i := First(s.queue, me, exec);
            var q := MoveOf(p, TakeTask(me, exec));
            (if i < |s.queue| then Matches(q, W.TookAt(s, i), me, Holding(s.queue[i], |p.taken|)) else Matches(q, s, me, NoTask)) &&
            q.taken == p.taken + (if i < |s.queue| then [s.queue[i]] else []) && q.yielded == p.yielded
  {
    hide First, Without;
  }

  lemma FiberMatches<F(!new)>(p: Pool<F>, q: Pool<F>, s: W.Loop<F>, me: int, e: Entry<F>, k: nat, g: W.Segment<F>)
    requires Leads(p, q, me) && Matches(q, s, me, Holding(e, k)) && e.job.FiberJob? && W.FiberTurn(s, e.job.f, g).Next?
    ensures var o := W.FiberTurn(s, e.job.f, g).s;
            exists r :: Leads(p, r, me) && Matches(r, o, me, AtHead) &&
              r.taken == q.taken && r.yielded == q.yielded + IfReady(o, e.job.f)
  {
    hide Leads;
    var f := e.job.f;
    var o := W.FiberTurn(s, f, g).s;
    if Over(W.ValueOf(s, f).state) {
      Then(p, q, SkipFinished(me), me);
      assert Matches(MoveOf(q, SkipFinished(me)), o, me, AtHead);
    } else {
      var s' := W.Stretch(s, f, g);
      W.DidFields(s, g.deeds);
      hide W.Did;
      Then(p, q, Start(me), me);
      AlsoPushes(p, MoveOf(q, Start(me)), g.deeds.pushed, me);
      var ran := Pushed(MoveOf(q, Start(me)), g.deeds.pushed);
      AfterStretch(p, ran, me, f, s'.fibers[f].state == READY);
      var r :| Leads(p, r, me) && r.active == ran.active - 1 && r.idle == ran.idle && me in r.pcs && r.pcs[me] == AtHead &&
               r.taken == ran.taken && r.yielded == ran.yielded + (if s'.fibers[f].state == READY then [f] else []) &&
               r.queue == ran.queue + if s'.fibers[f].state == READY then [Entry(FiberJob(f), ANY)] else [];
      assert Matches(r, o, me, AtHead);
    }
  }

  lemma CallbackMatches<F(!new)>(p: Pool<F>, q: Pool<F>, s: W.Loop<F>, me: int, e: Entry<F>, k: nat, g: W.Segment<F>, spare: F)
    requires Leads(p, q, me) && Matches(q, s, me, Holding(e, k)) && e.job.CallbackJob?
    requires W.CallbackTurn(s, e.job.cb, g, spare).Next?
    ensures var o := W.CallbackTurn(s, e.job.cb, g, spare).s;
            exists r :: Leads(p, r, me) && Matches(r, o, me, AtHead) &&
              r.taken == q.taken && r.yielded == q.yielded + IfReady(o, W.CallbackFiber(s, spare))
  {
    hide Leads;
    var f := W.CallbackFiber(s, spare);
    var o := W.CallbackTurn(s, e.job.cb, g, spare).s;
    var s1 := s.(cb := Some(f), fibers := s.fibers[f := FiberVal(INIT, Some(e.job.cb))]);
    var s' := W.Stretch(s1, f, g);
    W.DidFields(s1, g.deeds);
    hide W.Did;
    Then(p, q, Start(me), me);
    AlsoPushes(p, MoveOf(q, Start(me)), g.deeds.pushed, me);
    var ran := Pushed(MoveOf(q, Start(me)), g.deeds.pushed);
    AfterStretch(p, ran, me, f, s'.fibers[f].state == READY);
    var r :| Leads(p, r, me) && r.active == ran.active - 1 && r.idle == ran.idle && me in r.pcs && r.pcs[me] == AtHead &&
             r.taken == ran.taken && r.yielded == ran.yielded + (if s'.fibers[f].state == READY then [f] else []) &&
             r.queue == ran.queue + if s'.fibers[f].state == READY then [Entry(FiberJob(f), ANY)] else [];
    assert Matches(r, o, me, AtHead);
  }

  lemma IdleMatches<F(!new)>(p: Pool<F>, q: Pool<F>, s: W.Loop<F>, me: int, t: W.Input<F>)
    requires Leads(p, q, me) && Matches(q, s, me, NoTask) && !W.IdleTurn(s, t).Aborts?
    ensures var o := W.IdleTurn(s, t);
            exists r :: Leads(p, r, me) && Matches(r, o.s, me, if o.Exits? then Exited else AtHead) &&
              r.taken == q.taken && r.yielded == q.yielded
  {
    hide Leads, W.Checked, W.Stops;
    W.DidFields(s, t.between);
    W.CheckedFields(s, t);
    W.DidFields(W.Checked(s, t), t.segment.deeds);
    hide W.Did;
    var o := W.IdleTurn(s, t);
    if s.idle == TERM {
      AlsoPushes(p, q, t.between.pushed, me);
      var r := Pushed(q, t.between.pushed);
      Then(p, r, Exit(me), me);
      assert Matches(MoveOf(r, Exit(me)), o.s, me, Exited);
    } else {
      var d := t.between.pushed + t.looked.pushed + t.counted.pushed;
      Then(p, q, GoIdle(me), me);
      AlsoPushes(p, MoveOf(q, GoIdle(me)), d, me);
      var r := Pushed(MoveOf(q, GoIdle(me)), d);
      assert r.queue == W.Checked(s, t).queue;
      if !W.Stops(s, t) {
        AlsoPushes(p, r, t.segment.deeds.pushed, me);
        r := Pushed(r, t.segment.deeds.pushed);
      }
      Then(p, r, LeaveIdle(me), me);
      assert Matches(MoveOf(r, LeaveIdle(me)), o.s, me, AtHead);
    }
  }

  /** Every turn of the loop that fails no assertion is a sequence of moves, which
      take the entry of the turn, and queue again the fiber it ran exactly if that is
      READY afterwards. */
  lemma TurnMatches<F(!new)>(p: Pool<F>, s: W.Loop<F>, me: int, t: W.Input<F>)
    requires Matches(p, s, me, AtHead) && !W.Turn(s, me, t).Aborts?
    ensures var o := W.Turn(s, me, t);
            exists r :: Leads(p, r, me) && Matches(r, o.s, me, if o.Exits? then Exited else AtHead) &&
              r.taken == p.taken + Takes(s, me, t) && r.yielded == p.yielded + Yields(s, me, t)
  {
    hide Leads, W.IdleTurn, W.FiberTurn, W.CallbackTurn, W.Turn, First, Without, W.InExec, Able, MoveOf;
    W.TurnForm(s, me, t);
    W.DidFields(s, t.before);
    hide W.Did;
    TurnsOnly(s, me, t);
    Pushes(p, t.before.pushed, me);
    var s1, p1 := W.Did(s, t.before), Pushed(p, t.before.pushed);
    var exec := W.InExec(s.fibers);
    TakeMatches(p1, s1, me, exec);
    Then(p, p1, TakeTask(me, exec), me);
    var q := MoveOf(p1, TakeTask(me, exec));
    var e := W.Taken(s, me, t);
    if e.None? {
      IdleMatches(p, q, s1, me, t);
    } else {
      var i := First(s1.queue, me, exec);
      match e.value.job
      case FiberJob(f) => FiberMatches(p, q, W.TookAt(s1, i), me, e.value, |p1.taken|, t.segment);
      case CallbackJob(cb) => CallbackMatches(p, q, W.TookAt(s1, i), me, e.value, |p1.taken|, t.segment, t.spare);
    }
  }

  /** Only the idle branch ends the loop. */
  lemma TurnsOnly<F>(s: W.Loop<F>, me: int, t: W.Input<F>)
    ensures W.Taken(s, me, t).Some? ==> !W.Turn(s, me, t).Exits?
  {
    hide W.Turn, First, Without, W.InExec, W.IdleTurn, W.Did;
    W.TurnForm(s, me, t);
  }

  /** The entries that a run takes, and the fibers that it ran and that were READY
      then. */
  function TakenOn<F(==)>(s: W.Loop<F>, me: int, ts: seq<W.Input<F>>): seq<Entry<F>>
    requires !W.Run(s, me, ts).Aborts?
    decreases |ts|
  {
    if ts == [] then []
    else Takes(s, me, ts[0]) + if W.Turn(s, me, ts[0]).Next? then TakenOn(W.Turn(s, me, ts[0]).s, me, ts[1..]) else []
  }

  function YieldedOn<F(==)>(s: W.Loop<F>, me: int, ts: seq<W.Input<F>>): seq<F>
    requires !W.Run(s, me, ts).Aborts?
    decreases |ts|
  {
    if ts == [] then []
    else Yields(s, me, ts[0]) + if W.Turn(s, me, ts[0]).Next? then YieldedOn(W.Turn(s, me, ts[0]).s, me, ts[1..]) else []
  }

  /** So is every run: the counters and the entries of the loop are those of a pool
      that kept its invariant all the way. */
  lemma {:induction false} RunMatches<F(!new)>(p: Pool<F>, s: W.Loop<F>, me: int, ts: seq<W.Input<F>>)
    requires PoolInv(p) && Matches(p, s, me, AtHead) && !W.Run(s, me, ts).Aborts?
    ensures var o := W.Run(s, me, ts);
            exists r :: Leads(p, r, me) && PoolInv(r) && Matches(r, o.s, me, if o.Exits? then Exited else AtHead) &&
              r.taken == p.taken + TakenOn(s, me, ts) && r.yielded == p.yielded + YieldedOn(s, me, ts)
    decreases |ts|
  {
    hide Leads, PoolInv, W.Turn, Takes, Yields, Matches;
    if ts == [] {
      Stays(p, me);
      assert p.taken + [] == p.taken && p.yielded + [] == p.yielded;
    } else {
      TurnMatches(p, s, me, ts[0]);
      var o := W.Turn(s, me, ts[0]);
      var q :| Leads(p, q, me) && Matches(q, o.s, me, if o.Exits? then Exited else AtHead) &&
               q.taken == p.taken + Takes(s, me, ts[0]) && q.yielded == p.yielded + Yields(s, me, ts[0]);
      LeadsInv(p, q, me);
      if o.Next? {
        RunMatches(q, o.s, me, ts[1..]);
        var end := W.Run(s, me, ts);
        var r :| Leads(q, r, me) && PoolInv(r) && Matches(r, end.s, me, if end.Exits? then Exited else AtHead) &&
                 r.taken == q.taken + TakenOn(o.s, me, ts[1..]) && r.yielded == q.yielded + YieldedOn(o.s, me, ts[1..]);
        LeadsOn(p, q, r, me);
      }
    }
  }

  lemma LeadsInv<F(!new)>(p: Pool<F>, q: Pool<F>, me: int)
    requires PoolInv(p) && Leads(p, q, me)
    ensures PoolInv(q)
  {
    hide PoolInv;
    var ms :| AbleRun(p, ms) && Own(ms, me) && PoolRun(p, ms) == q;
    PoolRunInv(p, ms);
  }
}
