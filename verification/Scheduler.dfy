// The scheduler as the object the program changes in place, each operation
// against the value-level step it performs.

module Schedulers {
  import opened Common
  import opened Fibers
  import opened SchedSpec
  import opened WorkerSpec
  import T = TimerSpec
  import I = IoSpec

  /** The entries that a range of callbacks becomes; empty callbacks give none. */
  function Entries(cbs: seq<Option<nat>>, thread: int): seq<Entry<Fiber>> {
    if cbs == [] then []
    else
      var init := Entries(cbs[..|cbs| - 1], thread);
      var last := cbs[|cbs| - 1];
      if last.Some? then init + [Entry(CallbackJob(last.value), thread)] else init
  }

  /** One entry for each callback that is not empty, in the order of the range. */
  lemma {:induction false} EntriesJoin(a: seq<Option<nat>>, b: seq<Option<nat>>, thread: int)
    ensures Entries(a + b, thread) == Entries(a, thread) + Entries(b, thread)
    ensures forall c: Option<nat> :: Entries([c], thread) == if c.Some? then [Entry(CallbackJob(c.value), thread)] else []
    decreases |b|
  {
    forall c: Option<nat>
      ensures Entries([c], thread) == if c.Some? then [Entry(CallbackJob(c.value), thread)] else []
    {
      assert [c][..0] == [];
    }
    if b == [] {
      assert a + b == a;
    } else {
      var init, last := b[..|b| - 1], b[|b| - 1];
      assert (a + b)[..|a + b| - 1] == a + init;
      EntriesJoin(a, init, thread);
      assert (a + b)[|a + b| - 1] == last;
    }
  }

  lemma StretchValue(s: Loop<Fiber>, f: Fiber, g: Segment<Fiber>)
    requires f in s.fibers
    ensures var s' := Stretch(s, f, g);
            f in s'.fibers && s'.fibers[f] == Ran(s.fibers[f], g.end) && s'.active == s.active
  {
  }

  /** The idle fiber's own state is beside the rest. */
  lemma IdleBeside(s: Loop<Fiber>, d: Deeds<Fiber>, idle: FiberState)
    ensures Did(s.(idle := idle), d) == Did(s, d).(idle := idle)
    ensures Did(s.(idling := s.idling + 1), d) == Did(s, d).(idling := s.idling + 1)
  {
    hide T.Run, I.Run;
  }

  lemma IdleApart(s: Loop<Fiber>, t: Input<Fiber>, idle: FiberState)
    ensures Did(s.(idle := idle), t.between) == Did(s, t.between).(idle := idle)
    ensures Checked(s.(idle := idle), t) == Checked(s, t).(idle := idle)
    ensures Stops(s.(idle := idle), t) == Stops(s, t)
  {
    hide Did, T.DoGetNextTimer;
    IdleBeside(s, t.between, idle);
    IdleBeside(TimersSeen(s, t), t.looked, idle);
    IdleBeside(EventsSeen(s, t), t.counted, idle);
  }

  lemma IdlingApart(s: Loop<Fiber>, t: Input<Fiber>)
    ensures var s' := s.(idling := s.idling + 1);
            Did(s', t.between) == Did(s, t.between).(idling := s.idling + 1) &&
            Checked(s', t) == Checked(s, t).(idling := s.idling + 1) && Stops(s', t) == Stops(s, t) &&
            Did(Checked(s', t), t.segment.deeds) == Did(Checked(s, t), t.segment.deeds).(idling := s.idling + 1) &&
            Checked(s, t).idling == s.idling && Did(Checked(s, t), t.segment.deeds).idling == s.idling
  {
    hide Did, T.DoGetNextTimer;
    DidFields(s, t.between);
    DidFields(TimersSeen(s, t), t.looked);
    DidFields(EventsSeen(s, t), t.counted);
    DidFields(Checked(s, t), t.segment.deeds);
    IdleBeside(s, t.between, HOLD);
    IdleBeside(TimersSeen(s, t), t.looked, HOLD);
    IdleBeside(EventsSeen(s, t), t.counted, HOLD);
    IdleBeside(Checked(s, t), t.segment.deeds, HOLD);
  }

  class Scheduler {
    var queue: seq<Entry<Fiber>>
    var active: int
    var idling: int
    var cbFiber: Fiber?
    const idleFiber: Fiber
    /** A stop was requested; the timers and the events of the manager. */
    var stop: bool
    var timers: T.State
    var events: I.State
    /** Every fiber made so far, the idle one apart. */
    ghost var all: set<Fiber>

    ghost function Values(): map<Fiber, FiberVal>
      reads this`all, all
    {
      map f | f in all :: f.Value()
    }

    ghost function View(): Loop<Fiber>
      reads this, all, idleFiber
    {
      Loop(queue, active, idling, Values(), if cbFiber == null then None else Some(cbFiber),
           idleFiber.state, stop, timers, events)
    }

    ghost predicate Valid()
      reads this
    {
      idleFiber !in all && (cbFiber != null ==> cbFiber in all)
    }

    constructor (now: nat)
      ensures Valid() && fresh(idleFiber)
      ensures View() == Loop([], 0, 0, map[], None, INIT, false, T.State(map[], [], false, now, {}), I.Initial())
    {
      idleFiber := new Fiber(None);
      queue, active, idling, cbFiber := [], 0, 0, null;
      stop, timers, events := false, T.State(map[], [], false, now, {}), I.Initial();
      all := {};
    }

    // ----------------------------------------------------------- scheduling

    /** Queues a job unless it is empty; a tickle is due if nothing was queued. */
    method Schedule(job: Option<Job<Fiber>>, thread: int) returns (needTickle: bool)
      modifies this`queue
      ensures needTickle == (old(queue) == [])
      ensures queue == old(queue) + if job.Some? then [Entry(job.value, thread)] else []
    {
      needTickle := queue == [];
      if job.Some? {
        queue := queue + [Entry(job.value, thread)];
      }
    }

    /** Queues the callbacks of a range, in order, and leaves the range empty. */
    method ScheduleAll(cbs: array<Option<nat>>, thread: int) returns (needTickle: bool)
      modifies this`queue, cbs
      ensures queue == old(queue) + Entries(old(cbs[..]), thread)
      ensures forall k :: 0 <= k < cbs.Length ==> cbs[k] == None
      ensures needTickle <==> old(queue) == [] && cbs.Length > 0
    {
      needTickle := false;
      var i := 0;
      ghost var was, all := queue, cbs[..];
      while i < cbs.Length
        invariant 0 <= i <= cbs.Length
        invariant queue == was + Entries(all[..i], thread)
        invariant forall k :: 0 <= k < i ==> cbs[k] == None
        invariant forall k :: i <= k < cbs.Length ==> cbs[k] == all[k]
        invariant needTickle <==> was == [] && i > 0
      {
        ghost var before := queue;
        var job := if cbs[i].Some? then Some(CallbackJob(cbs[i].value)) else None;
        var need := Schedule(job, thread);
        needTickle := need || needTickle;
        cbs[i] := None;
        assert all[..i + 1][..i] == all[..i];
        i := i + 1;
      }
      assert all[..i] == all;
    }

    // ---------------------------------------------------------------- taking

    /** The scan of the queue: takes the first entry this thread may take, passing
        over entries pinned elsewhere and fibers being executed. */
    method TakeTask(me: int) returns (task: Option<Entry<Fiber>>, tickle: bool)
      requires Valid() && forall i :: 0 <= i < |queue| && queue[i].job.FiberJob? ==> queue[i].job.f in all
      modifies this`queue, this`active
      ensures var (q, exec) := (old(queue), InExec(old(View()).fibers));
              var i := First(q, me, exec);
              tickle == NeedsTickle(q, me, exec) &&
              if i < |q| then task == Some(q[i]) && queue == Without(q, i) && active == old(active) + 1
              else task == None && queue == q && active == old(active)
      ensures task.Some? ==> task.value.thread == -1 || task.value.thread == me
      ensures task.Some? && task.value.job.FiberJob? ==> task.value.job.f.state != EXEC
    {
      tickle, task := false, None;
      var it := 0;
      ghost var q, exec := queue, InExec(View().fibers);
      while it < |queue|
        invariant 0 <= it <= |queue| && queue == q && active == old(active) && task == None
        invariant forall j :: 0 <= j < it ==> !Eligible(q[j], me, exec)
        invariant tickle <==> exists j :: 0 <= j < it && Elsewhere(q[j], me)
      {
        var e := queue[it];
        if e.thread != ANY && e.thread != me {
          tickle := true;
        } else if e.job.FiberJob? && e.job.f.state == EXEC {
          assert e.job.f in exec;
        } else {
          FirstUnique(q, me, exec, it);
          task := Some(e);
          queue := Without(queue, it);
          active := active + 1;
          tickle := tickle || it < |queue|;
          return;
        }
        it := it + 1;
      }
      FirstUnique(q, me, exec, it);
    }

    // --------------------------------------------------------------- one turn

    /** What other code, or other threads, do. */
    method Do(d: Deeds<Fiber>)
      modifies this`queue, this`stop, this`timers, this`events
      ensures View() == Did(old(View()), d)
    {
      hide Values, T.Run, I.Run;
      queue := queue + d.pushed;
      stop := stop || d.stop;
      timers := T.Run(timers, d.calls);
      events := I.Run(events, d.ops);
    }

    /** The stretch of a fiber: what its code leaves behind. */
    method RunFiber(f: Fiber, g: Segment<Fiber>)
      requires Valid() && f in all && f.state != EXEC
      modifies this`queue, this`stop, this`timers, this`events, f
      ensures View() == Stretch(old(View()), f, g) && f.Value() == Ran(old(f.Value()), g.end)
    {
      hide T.Run, I.Run;
      f.RunStretch(g.end);
      Do(g.deeds);
    }

    lemma ValueNow(f: Fiber)
      requires f in all
      ensures f in View().fibers && ValueOf(View(), f) == f.Value()
    {
    }

    /** A fiber from the queue; one that is over is dropped. */
    method TurnFiber(f: Fiber, g: Segment<Fiber>)
      requires Valid() && f in all && f.state != EXEC
      modifies this`queue, this`stop, this`timers, this`events, this`active, f
      ensures FiberTurn(old(View()), f, g) == Next(View())
    {
      hide Values, Stretch;
      ghost var s := View();
      ValueNow(f);
      if f.state != TERM && f.state != EXCEPT {
        StretchValue(s, f, g);
        RunFiber(f, g);
        active := active - 1;
        if f.state == READY {
          var _ := Schedule(Some(FiberJob(f)), ANY);
        } else if f.state != TERM && f.state != EXCEPT {
          assert f.state == HOLD;
          f.state := HOLD;
        }
      } else {
        active := active - 1;
      }
    }

    /** The fiber for a callback: the one kept, or `spare`, the one made for it. */
    method PrepareFiber(cb: nat, spare: Fiber) returns (f: Fiber)
      requires Valid() && spare !in all && spare != idleFiber && Resettable(spare.state)
      requires cbFiber != null ==> Resettable(cbFiber.state)
      modifies this`cbFiber, this`all, cbFiber, spare
      ensures Valid() && f == (if old(cbFiber) != null then old(cbFiber) else spare) && cbFiber == f
      ensures all == old(all) + {f} && f.Value() == FiberVal(INIT, Some(cb))
      ensures spare !in all ==> spare.Value() == old(spare.Value())
      ensures View() == old(View()).(cb := Some(f), fibers := old(View()).fibers[f := FiberVal(INIT, Some(cb))])
    {
      if cbFiber != null {
        cbFiber.Reset(Some(cb));
      } else {
        spare.Reset(Some(cb));
        cbFiber := spare;
      }
      f := cbFiber;
      all := all + {f};
    }

    /** What becomes of the fiber kept for callbacks once its stretch is over. */
    method SettleFiber()
      requires Valid() && cbFiber != null && cbFiber.state != EXCEPT
      modifies this`queue, this`cbFiber, cbFiber
      ensures Valid()
      ensures var (s, f) := (old(View()), old(cbFiber));
              View() ==
                match s.fibers[f].state
                case READY => Requeued(s, f)
                case TERM => s.(fibers := s.fibers[f := FiberVal(INIT, None)])
                case _ => s.(cb := None, fibers := s.fibers[f := FiberVal(HOLD, s.fibers[f].cb)])
    {
      if cbFiber.state == READY {
        var _ := Schedule(Some(FiberJob(cbFiber)), ANY);
      } else if cbFiber.state == TERM || cbFiber.state == EXCEPT {
        cbFiber.Reset(None);
      } else {
        cbFiber.state := HOLD;
        cbFiber := null;
      }
    }

    /** A callback that does not throw, on a fiber that can be reset. */
    method TurnCallback(cb: nat, g: Segment<Fiber>, spare: Fiber)
      requires Valid() && spare !in all && spare != idleFiber && Resettable(spare.state)
      requires (cbFiber != null ==> Resettable(cbFiber.state)) && g.end != Throws
      modifies this`cbFiber, this`all, this`queue, this`stop, this`timers, this`events, this`active, cbFiber, spare
      ensures Valid() && old(all) <= all <= old(all) + {spare} && (spare !in all ==> spare.Value() == old(spare.Value()))
      ensures CallbackTurn(old(View()), cb, g, spare) == Next(View())
    {
      hide View, Stretch, Requeued, Values;
      ghost var s := View();
      KeptName();
      var f := PrepareFiber(cb, spare);
      RunFiber(f, g);
      ghost var s2 := View();
      StretchValue(s.(cb := Some(f), fibers := s.fibers[f := FiberVal(INIT, Some(cb))]), f, g);
      Leave();
      ghost var s3 := View();
      assert s3.fibers[f := s3.fibers[f]] == s3.fibers;
      SettleFiber();
    }

    lemma KeptName()
      requires Valid()
      ensures View().cb == if cbFiber == null then None else Some(cbFiber)
      ensures cbFiber != null ==> ValueOf(View(), cbFiber) == cbFiber.Value()
    {
    }

    method Leave()
      modifies this`active
      ensures View() == old(View()).(active := old(View()).active - 1)
    {
      active := active - 1;
    }

    /** `stopping`: the timers, the pending count and the scheduler are looked at in
        turn, and other threads may act in between.  `s` is the loop before the idle
        stretch. */
    method Stopping(t: Input<Fiber>, ghost s: Loop<Fiber>) returns (done: bool)
      requires View() == Did(s, t.between)
      modifies this`queue, this`stop, this`timers, this`events
      ensures View() == Checked(s, t) && done == Stops(s, t)
    {
      hide Values, Did, T.DoGetNextTimer;
      var (seen, next) := T.DoGetNextTimer(timers, t.now);
      timers := seen;
      Do(t.looked);
      var noEvent := events.pending == 0;
      Do(t.counted);
      done := next.timeout == T.NEVER && noEvent && stop && queue == [] && active == 0;
    }

    /** The idle fiber from swapping in to swapping out: it ends when it finds
        everything done, else polls once and swaps out as it is. */
    method IdleStretch(t: Input<Fiber>, ghost s: Loop<Fiber>)
      requires Valid() && View() == Did(s, t.between) && idleFiber.state != EXEC
      modifies this`queue, this`stop, this`timers, this`events, idleFiber
      ensures View() == if Stops(s, t) then Checked(s, t).(idle := TERM) else Did(Checked(s, t), t.segment.deeds).(idle := EXEC)
    {
      hide Values, Did, Checked, Stops;
      idleFiber.SwapIn();
      ghost var s' := s.(idle := EXEC);
      IdleApart(s, t, EXEC);
      var done := Stopping(t, s');
      if done {
        idleFiber.Finish(false);
      } else {
        Do(t.segment.deeds);
        IdleBeside(Checked(s, t), t.segment.deeds, EXEC);
      }
    }

    /** No task: the loop is over once the idle fiber is. */
    method TurnIdle(t: Input<Fiber>) returns (exited: bool)
      requires Valid() && idleFiber.state != EXEC
      modifies this`idling, this`queue, this`stop, this`timers, this`events, idleFiber
      ensures IdleTurn(old(View()), t) == if exited then Exits(View()) else Next(View())
    {
      hide Values, Did, Checked, Stops;
      ghost var s := View();
      DidFields(s, t.between);
      Do(t.between);
      exited := idleFiber.state == TERM;
      if !exited {
        IdleCounted(t, s);
      }
    }

    /** The idle stretch, counted while it lasts. */
    method IdleCounted(t: Input<Fiber>, ghost s: Loop<Fiber>)
      requires Valid() && View() == Did(s, t.between) && idleFiber.state != EXEC
      modifies this`idling, this`queue, this`stop, this`timers, this`events, idleFiber
      ensures View() ==
                if Stops(s, t) then Checked(s, t).(idle := TERM) else Did(Checked(s, t), t.segment.deeds).(idle := HOLD)
    {
      hide Values, Did, Checked, Stops;
      DidFields(s, t.between);
      idling := idling + 1;
      ghost var s' := s.(idling := s.idling + 1);
      IdlingApart(s, t);
      IdleStretch(t, s');
      idling := idling - 1;
      if idleFiber.state != TERM && idleFiber.state != EXCEPT {
        idleFiber.state := HOLD;
      }
    }

    lemma Names()
      ensures View().fibers.Keys == all
    {
    }

    /** What the preconditions of the turns need of the state at a loop head. */
    lemma AtLoopHead(me: int, t: Input<Fiber>)
      requires Valid() && HeadInv(View()) && Fair(View(), me, t)
      ensures t.spare !in all && idleFiber.state != EXEC && (cbFiber != null ==> ValueOf(View(), cbFiber) == cbFiber.Value())
      ensures forall f :: f in all ==> f.state != EXEC
      ensures var q := queue + t.before.pushed;
              forall i :: 0 <= i < |q| && q[i].job.FiberJob? ==> q[i].job.f in all
    {
      Names();
      KnownJoin(queue, t.before.pushed, all);
      forall f | f in all
        ensures f.state != EXEC
      {
        ValueNow(f);
      }
    }

    /** One turn of the loop, whatever its code does, unless an assertion about
        fiber states fails in it. */
    method RunTurn(me: int, t: Input<Fiber>) returns (exited: bool)
      requires Valid() && HeadInv(View()) && Fair(View(), me, t) && !Turn(View(), me, t).Aborts?
      requires t.spare != idleFiber && Resettable(t.spare.state)
      modifies this, all, idleFiber, t.spare
      ensures Valid() && old(all) <= all <= old(all) + {t.spare} && (t.spare !in all ==> t.spare.Value() == old(t.spare.Value()))
      ensures Turn(old(View()), me, t) == if exited then Exits(View()) else Next(View())
    {
      hide Values, HeadInv, Fair, First, Without, InExec, FiberTurn, CallbackTurn, IdleTurn, Turn, NeedsTickle, Did, NamesAfter,
        IdleFair, Known, Proper, Resettable;
      ghost var s := View();
      AtLoopHead(me, t);
      TurnForm(s, me, t);
      TurnBase(s, me, t);
      DidFields(s, t.before);
      Do(t.before);
      var task, tickle := TakeTask(me);
      exited := false;
      match task
      case None => exited := TurnIdle(t);
      case Some(Entry(FiberJob(f), _)) => TurnFiber(f, t.segment);
      case Some(Entry(CallbackJob(cb), _)) => TurnCallback(cb, t.segment, t.spare);
    }

    /** The loop, over the inputs of its turns, unless an assertion about fiber
        states fails: `exited` says whether it ended before they were used up. */
    method Run(me: int, ts: seq<Input<Fiber>>) returns (exited: bool)
      requires Valid() && HeadInv(View()) && FairRun(View(), me, ts) && !WorkerSpec.Run(View(), me, ts).Aborts?
      requires forall i :: 0 <= i < |ts| ==> ts[i].spare != idleFiber && (ts[i].spare !in all ==> ts[i].spare.state == INIT)
      modifies this, all, idleFiber, set i | 0 <= i < |ts| :: ts[i].spare
      ensures Valid() && HeadInv(View())
      ensures WorkerSpec.Run(old(View()), me, ts) == if exited then Exits(View()) else Next(View())
    {
      hide Values, HeadInv, Fair, Tame, KeptReady, TakesCallback, Turn;
      exited := false;
      var k := 0;
      ghost var s, was := View(), all;
      ghost var spares := set i | 0 <= i < |ts| :: ts[i].spare;
      while k < |ts| && !exited
        invariant 0 <= k <= |ts|
        invariant Valid() && HeadInv(View()) && all <= was + spares
        invariant !exited ==> FairRun(View(), me, ts[k..])
        invariant !exited ==> WorkerSpec.Run(s, me, ts) == WorkerSpec.Run(View(), me, ts[k..])
        invariant exited ==> WorkerSpec.Run(s, me, ts) == Exits(View())
        invariant forall i :: 0 <= i < |ts| && ts[i].spare !in all ==> ts[i].spare.state == INIT
      {
        assert ts[k..][0] == ts[k] && ts[k..][1..] == ts[k + 1..];
        TurnBase(View(), me, ts[k]);
        NewSpare(me, ts[k]);
        exited := RunTurn(me, ts[k]);
        k := k + 1;
      }
    }

    lemma NewSpare(me: int, t: Input<Fiber>)
      requires Fair(View(), me, t)
      ensures t.spare !in all
    {
      Names();
    }
  }
}
