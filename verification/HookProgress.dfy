// Who is due goes off, and who went off runs: the steps that end a sleep or time a
// wait out, in terms of deadlines and of places in the queue.

module HookProgress {
  import opened Common
  import T = TimerSpec
  import C = TimerCalls
  import I = IoSpec
  import IC = IoCalls
  import opened HookProtocol
  import opened HookRuns
  import opened HookWakes

  // ----------------------------------------------------------- who goes off

  /** The clock is more than an hour behind the last look at it. */
  predicate WentBack(w: World) {
    w.now < w.tm.previous && w.now < (w.tm.previous - 3_600_000) % 0x1_0000_0000_0000_0000
  }

  /** The timer is in the set and its deadline has passed, or the clock went back. */
  predicate Due(w: World, a: TimerId)
    requires a in w.tm.info
  {
    a in w.tm.order && (w.tm.info[a].next <= w.now || WentBack(w))
  }

  /** What an idle stretch does to a timer. */
  ghost predicate WentOff(w: World, w': World, a: TimerId)
    requires a in w.tm.info
  {
    a in w'.tm.info &&
    if Due(w, a) then
      && TimerTask(a) in w'.queue
      && a in w'.fired && w'.fired[a] == Firing(w.now, WentBack(w))
      && (w.tm.info[a].recurring ==>
            a in w'.tm.order && w'.tm.info[a] == w.tm.info[a].(next := (w.now + w.tm.info[a].ms) % 0x1_0000_0000_0000_0000))
      && (!w.tm.info[a].recurring ==> a !in w'.tm.order && w'.tm.info[a] == w.tm.info[a].(cb := None))
    else
      && TimerTask(a) !in w'.queue
      && w'.tm.info[a] == w.tm.info[a] && (a in w'.tm.order <==> a in w.tm.order)
      && (a in w'.fired <==> a in w.fired) && (a in w.fired ==> w'.fired[a] == w.fired[a])
  }

  /** An idle stretch queues the callbacks of exactly the timers that are due, behind
      what was queued before; a recurring one is set again and any other is spent. */
  lemma IdleMeans(w: World, probe: nat, batch: seq<I.Report>)
    requires Inv(w) && Legal(w, Idle(probe, batch))
    ensures var w' := Step(w, Idle(probe, batch));
            && (forall a :: a in w.tm.info ==> WentOff(w, w', a))
            && w.queue <= w'.queue && w'.kinds == w.kinds && w'.fibers == w.fibers && w'.calls == w.calls && w'.now == w.now
  {
    hide Sound, TimerOk, FiberOk, T.Inv, I.Inv, I.DeliverAll, I.Faithful, DoIdle, WithIo, WentOff, AfterTimers, InQueue;
    SoundPart(w);
    IdleInv(w, probe, batch);
    IoPart(w);
    I.FaithfulBatch(w.io, batch);
    TimersFireInv(w, probe);
    var w1, io := AfterTimers(w, probe), I.DeliverAll(w.io, batch).0;
    SoundPart(w1);
    AfterFields(w, probe);
    IoFrame(w1, io);
    IoTimerTasks(w1, io);
    forall a | a in w.tm.info
      ensures WentOff(w, Step(w, Idle(probe, batch)), a)
    {
      FiredOff(w, probe, a);
      SameTimers(w, w1, WithIo(w1, io), a);
    }
  }

  lemma AfterFields(w: World, probe: nat)
    ensures var w1 := AfterTimers(w, probe);
            w1.io == w.io && w1.kinds == w.kinds && w1.fibers == w.fibers && w1.calls == w.calls && w1.now == w.now &&
            w.queue <= w1.queue
  {
    hide Fired, TimerTasks;
  }

  lemma InQueueMeans(w: World, t: Task)
    ensures InQueue(w, t) > 0 <==> t in w.queue
  {
  }

  lemma SameTimers(w: World, w1: World, w': World, a: TimerId)
    requires a in w.tm.info && WentOff(w, w1, a) && w'.tm == w1.tm && w'.fired == w1.fired
    requires InQueue(w', TimerTask(a)) == InQueue(w1, TimerTask(a))
    ensures WentOff(w, w', a)
  {
    hide Due, InQueue;
    InQueueMeans(w1, TimerTask(a));
    InQueueMeans(w', TimerTask(a));
  }

  lemma FiredOff(w: World, probe: nat, a: TimerId)
    requires Sound(w) && OnlyUsers(w.queue) && a in w.tm.info
    ensures WentOff(w, AfterTimers(w, probe), a)
  {
    hide T.Inv, I.Inv, T.DoListExpiredCb, T.DoGetNextTimer, InQueue, TimerTasks, Due;
    FiredQueue(w, probe);
    ExpiredTimer(w.tm, w.now, probe, a);
    NotedTimes(w, Fired(w, probe).1.fired, a);
    InQueueMeans(AfterTimers(w, probe), TimerTask(a));
    DueFired(w, probe, a);
  }

  lemma DueFired(w: World, probe: nat, a: TimerId)
    requires Sound(w) && a in w.tm.info
    ensures a in Fired(w, probe).1.fired <==> Due(w, a)
  {
    hide T.Inv, I.Inv, T.DoListExpiredCb, T.DoGetNextTimer;
    ExpiredTimer(w.tm, w.now, probe, a);
  }

  lemma NotedTimes(w: World, fired: seq<TimerId>, a: TimerId)
    ensures a in fired ==> a in Noted(w, fired) && Noted(w, fired)[a] == Firing(w.now, WentBack(w))
    ensures a !in fired ==> (a in Noted(w, fired) <==> a in w.fired) && (a in w.fired ==> Noted(w, fired)[a] == w.fired[a])
  {
  }

  /** The same on the timers alone. */
  lemma ExpiredTimer(tm: T.State, now: nat, probe: nat, a: TimerId)
    requires T.Inv(tm) && a in tm.info
    ensures var (s, out) := T.DoListExpiredCb(T.DoGetNextTimer(tm, now).0, now, probe);
            && (a in out.fired <==>
                  a in tm.order &&
                  (tm.info[a].next <= now || (now < tm.previous && now < (tm.previous - 3_600_000) % 0x1_0000_0000_0000_0000)))
            && a in s.info
            && (a !in out.fired ==> s.info[a] == tm.info[a] && (a in s.order <==> a in tm.order))
            && (a in out.fired ==>
                  s.info[a] == (if tm.info[a].recurring then tm.info[a].(next := (now + tm.info[a].ms) % 0x1_0000_0000_0000_0000)
                                else tm.info[a].(cb := None)) &&
                  (a in s.order <==> tm.info[a].recurring))
  {
    hide T.DoListExpiredCb, T.Sorted, T.InvExcept;
    T.FlagInv(tm, false);
    T.ListExpired(tm.(tickled := false), now, probe);
  }

  // --------------------------------------------------- first in, first served

  /** The scheduler takes the head of the queue. */
  predicate TakesHead(a: Action) {
    a.StartCallback? || a.RunTimeout? || a.RunWake? || a.Resume?
  }

  function HeadTakes(acts: seq<Action>): nat {
    if acts == [] then 0 else (if TakesHead(acts[0]) then 1 else 0) + HeadTakes(acts[1..])
  }

  lemma OneStepOn(w: World, a: Action, i: nat)
    requires Inv(w) && Legal(w, a) && i < |w.queue| && (TakesHead(a) ==> i > 0)
    ensures var k := if TakesHead(a) then i - 1 else i; k < |Step(w, a).queue| && Step(w, a).queue[k] == w.queue[i]
  {
    hide Inv, Legal, Step, Appended;
    LegalFits(w, a);
    OnlyAppends(w, a);
  }

  /** A task is at the head after as many takes as there were tasks ahead of it,
      whatever else happens meanwhile. */
  lemma {:induction false} Advances(w: World, acts: seq<Action>, i: nat)
    requires Inv(w) && LegalRun(w, acts) && HeadTakes(acts) <= i < |w.queue|
    ensures var (end, k) := (Run(w, acts), i - HeadTakes(acts)); k < |end.queue| && end.queue[k] == w.queue[i]
    decreases |acts|
  {
    hide Inv, Legal, Step, Fits;
    if acts != [] {
      LegalFits(w, acts[0]);
      StepInv(w, acts[0]);
      OneStepOn(w, acts[0], i);
      Advances(Step(w, acts[0]), acts[1..], if TakesHead(acts[0]) then i - 1 else i);
    }
  }

  /** What the longer steps do to the kinds of timers and to the calls. */
  lemma ParkFields(w: World, f: FiberId, fd: nat, e: I.Event, to: Option<nat>, call: CallId, timer: TimerId, allowed: bool)
    ensures var w' := DoPark(w, f, fd, e, to, call, timer, allowed);
            (forall t :: t in w.kinds && t != timer ==> t in w'.kinds && w'.kinds[t] == w.kinds[t]) &&
            (forall c :: c in w.calls && c != call ==> c in w'.calls && w'.calls[c] == w.calls[c])
  {
    hide I.AddEvent, T.DoAdd, T.DoCancel;
  }

  lemma TimeoutFields(w: World, a: TimerId, allowed: bool)
    requires a in w.kinds && w.kinds[a].IoTimeout?
    ensures var w' := DoTimeout(w, a, allowed);
            w'.kinds == w.kinds &&
            (forall c :: c in w.calls ==> c in w'.calls && (w'.calls[c] == w.calls[c] || w'.calls[c] == w.calls[c].(cancelled := true)))
  {
    hide I.CancelEvent, TasksOf;
  }

  lemma ResumeFields(w: World, f: FiberId)
    ensures var w' := DoResume(w, f);
            w'.kinds == w.kinds &&
            (forall c :: c in w.calls && !(f in w.fibers && w.fibers[f].Parked? && w.fibers[f].call == c) ==>
               c in w'.calls && w'.calls[c] == w.calls[c])
  {
    hide T.DoCancel;
  }

  lemma IdleFields(w: World, probe: nat, batch: seq<I.Report>)
    ensures var w' := DoIdle(w, probe, batch); w'.kinds == w.kinds && w'.calls == w.calls
  {
    hide T.DoListExpiredCb, T.DoGetNextTimer, I.DeliverAll, TasksOf, TimerTasks;
  }

  lemma IoFields(w: World, io: I.State)
    ensures WithIo(w, io).kinds == w.kinds && WithIo(w, io).calls == w.calls
  {
    hide TasksOf;
  }

  lemma KindKept(w: World, a: Action, t: TimerId)
    requires Legal(w, a) && t in w.kinds
    ensures t in Step(w, a).kinds && Step(w, a).kinds[t] == w.kinds[t]
  {
    hide T.DoAdd, I.AddEvent, I.CancelEvent, I.CancelAll, I.Faithful, T.Step, DoPark, DoTimeout, DoResume, DoIdle, WithIo;
    match a
    case RunTimeout(allowed) => TimeoutFields(Rest(w), w.queue[0].a, allowed);
    case Resume => ResumeFields(Rest(w), w.queue[0].f);
    case Park(f, fd, e, to, call, timer, allowed) => ParkFields(w, f, fd, e, to, call, timer, allowed);
    case CancelEvent(fd, e, allowed) => IoFields(w, I.CancelEvent(w.io, fd, e, allowed).0);
    case CancelAll(fd, allowed) => IoFields(w, I.CancelAll(w.io, fd, allowed).0);
    case Idle(probe, batch) => IdleFields(w, probe, batch);
    case _ =>
  }

  lemma {:induction false} KindsKept(w: World, acts: seq<Action>, t: TimerId)
    requires Inv(w) && LegalRun(w, acts) && t in w.kinds
    ensures Inv(Run(w, acts)) && t in Run(w, acts).kinds && Run(w, acts).kinds[t] == w.kinds[t]
    decreases |acts|
  {
    hide Inv, Legal, Step, Fits;
    if acts != [] {
      LegalFits(w, acts[0]);
      StepInv(w, acts[0]);
      KindKept(w, acts[0], t);
      KindsKept(Step(w, acts[0]), acts[1..], t);
    }
  }

  // ---------------------------------------------------------------- a sleep ends

  /** At an idle stretch a sleeping fiber has its timer set, for the end of its
      sleep. */
  lemma AsleepAtIdle(w: World, f: FiberId)
    requires Inv(w) && OnlyUsers(w.queue) && f in w.fibers && w.fibers[f].Sleeping?
    ensures var a := w.fibers[f].behind;
            a in w.tm.info && a in w.tm.order && w.tm.info[a].next == w.fibers[f].until && a in w.kinds && w.kinds[a] == Wake(f)
  {
    hide I.Inv, T.Sorted, TimeoutsFirst, OneRuns, TimerOk, InSlots;
    assert FiberOk(w, f);
    var a := w.fibers[f].behind;
    InQueueMeans(w, TimerTask(a));
    InQueueMeans(w, FiberTask(f));
  }

  /** A sleeper whose time has come, or whose clock went back, has its callback
      queued by the idle stretch, and no other sleeper has. */
  lemma SleeperGoesOff(w: World, probe: nat, batch: seq<I.Report>, f: FiberId)
    requires Inv(w) && Legal(w, Idle(probe, batch)) && f in w.fibers && w.fibers[f].Sleeping?
    ensures var (a, w') := (w.fibers[f].behind, Step(w, Idle(probe, batch)));
            a in w'.kinds && w'.kinds[a] == Wake(f) &&
            (TimerTask(a) in w'.queue <==> w.fibers[f].until <= w.now || WentBack(w))
  {
    hide Inv, Step, WentBack, I.Faithful;
    AsleepAtIdle(w, f);
    IdleMeans(w, probe, batch);
    var a := w.fibers[f].behind;
    assert WentOff(w, Step(w, Idle(probe, batch)), a);
  }

  /** The callback of a sleep, at the head: no other step can take it, and it queues
      the fiber last. */
  lemma WakesLast(w: World, a: TimerId, f: FiberId)
    requires w.queue != [] && w.queue[0] == TimerTask(a) && a in w.kinds && w.kinds[a] == Wake(f)
    ensures Fits(w, RunWake) && forall b :: TakesHead(b) && Fits(w, b) ==> b == RunWake
    ensures Step(w, RunWake).queue == w.queue[1..] + [FiberTask(f)]
  {
  }

  /** A fiber's entry, at the head: no other step can take it, and the fiber runs. */
  lemma RunsFromHead(w: World, f: FiberId)
    requires Inv(w) && w.queue != [] && w.queue[0] == FiberTask(f)
    ensures Fits(w, Resume) && forall b :: TakesHead(b) && Fits(w, b) ==> b == Resume
    ensures Runs(Step(w, Resume), f) && Step(w, Resume).queue == w.queue[1..]
  {
    hide Inv, T.DoCancel;
    AtHead(w, f);
  }

  /** A sleep ends: an idle stretch at its deadline or later queues the callback,
      somewhere at `i`; after i more takes that is the next to run, and it queues the
      fiber; after as many takes as there are tasks ahead of it then, the fiber is
      the next to run, and runs. */
  lemma SleepEnds(w: World, probe: nat, batch: seq<I.Report>, f: FiberId, i: nat, first: seq<Action>, second: seq<Action>)
    requires Inv(w) && Legal(w, Idle(probe, batch)) && f in w.fibers && w.fibers[f].Sleeping?
    requires w.fibers[f].until <= w.now
    requires var w1 := Step(w, Idle(probe, batch));
             i < |w1.queue| && w1.queue[i] == TimerTask(w.fibers[f].behind) && LegalRun(w1, first) && HeadTakes(first) == i
    ensures TimerTask(w.fibers[f].behind) in Step(w, Idle(probe, batch)).queue
    ensures var w2 := Run(Step(w, Idle(probe, batch)), first);
            Fits(w2, RunWake) && (forall b :: TakesHead(b) && Fits(w2, b) ==> b == RunWake) &&
            var w3 := Step(w2, RunWake);
            w3.queue != [] && w3.queue[|w3.queue| - 1] == FiberTask(f) &&
            (NobodyRuns(w2) && LegalRun(w3, second) && HeadTakes(second) == |w3.queue| - 1 ==>
               var w4 := Run(w3, second);
               Fits(w4, Resume) && (forall b :: TakesHead(b) && Fits(w4, b) ==> b == Resume) &&
               Runs(Step(w4, Resume), f))
  {
    hide Inv, Step, WentBack, I.Faithful, Fits, Runs;
    LegalFits(w, Idle(probe, batch));
    SleeperGoesOff(w, probe, batch, f);
    StepInv(w, Idle(probe, batch));
    var a, w1 := w.fibers[f].behind, Step(w, Idle(probe, batch));
    Advances(w1, first, i);
    KindsKept(w1, first, a);
    var w2 := Run(w1, first);
    WakesLast(w2, a, f);
    var w3 := Step(w2, RunWake);
    if NobodyRuns(w2) && LegalRun(w3, second) && HeadTakes(second) == |w3.queue| - 1 {
      ThenRuns(w2, w3, second, f, |w3.queue| - 1);
    }
  }

  lemma ThenRuns(w2: World, w3: World, second: seq<Action>, f: FiberId, j: nat)
    requires Inv(w2) && Legal(w2, RunWake) && w3 == Step(w2, RunWake)
    requires j < |w3.queue| && w3.queue[j] == FiberTask(f) && LegalRun(w3, second) && HeadTakes(second) == j
    ensures var w4 := Run(w3, second);
            Fits(w4, Resume) && (forall b :: TakesHead(b) && Fits(w4, b) ==> b == Resume) && Runs(Step(w4, Resume), f)
  {
    hide Inv, Step, Legal, Fits, Runs;
    StepInv(w2, RunWake);
    Reaches(w3, second, f, j);
  }

  /** A queued fiber runs after as many takes as there are tasks ahead of it. */
  lemma Reaches(w: World, acts: seq<Action>, f: FiberId, j: nat)
    requires Inv(w) && j < |w.queue| && w.queue[j] == FiberTask(f) && LegalRun(w, acts) && HeadTakes(acts) == j
    ensures var end := Run(w, acts);
            Fits(end, Resume) && (forall b :: TakesHead(b) && Fits(end, b) ==> b == Resume) && Runs(Step(end, Resume), f)
  {
    hide Inv, Step, Legal, Fits, Runs;
    Advances(w, acts, j);
    InvRun(w, acts);
    RunsFromHead(Run(w, acts), f);
  }

  lemma {:induction false} InvRun(w: World, acts: seq<Action>)
    requires Inv(w) && LegalRun(w, acts)
    ensures Inv(Run(w, acts))
    decreases |acts|
  {
    hide Inv, Legal, Step, Fits;
    if acts != [] {
      LegalFits(w, acts[0]);
      StepInv(w, acts[0]);
      InvRun(Step(w, acts[0]), acts[1..]);
    }
  }

  // ---------------------------------------------------------- a wait times out

  /** At an idle stretch a parked fiber that was not timed out has its timer set, for
      the end of its wait. */
  lemma ParkedAtIdle(w: World, f: FiberId)
    requires Inv(w) && OnlyUsers(w.queue) && f in w.fibers && w.fibers[f].Parked? && w.fibers[f].timer.Some?
    requires w.fibers[f].call in w.calls && !w.calls[w.fibers[f].call].cancelled
    ensures var (p, a) := (w.fibers[f], w.fibers[f].timer.value);
            a in w.tm.info && a in w.tm.order && w.tm.info[a].next == p.since + p.to &&
            a in w.kinds && w.kinds[a] == IoTimeout(f, p.call, p.fd, p.e)
  {
    hide I.Inv, T.Sorted, TimeoutsFirst, OneRuns, InSlots;
    assert FiberOk(w, f);
    var a := w.fibers[f].timer.value;
    assert TimerOk(w, a);
    InQueueMeans(w, TimerTask(a));
  }

  /** Its callback is queued exactly when its time has come, or the clock went
      back. */
  lemma WaitGoesOff(w: World, probe: nat, batch: seq<I.Report>, f: FiberId)
    requires Inv(w) && Legal(w, Idle(probe, batch)) && f in w.fibers && w.fibers[f].Parked? && w.fibers[f].timer.Some?
    requires w.fibers[f].call in w.calls && !w.calls[w.fibers[f].call].cancelled
    ensures var (p, a, w') := (w.fibers[f], w.fibers[f].timer.value, Step(w, Idle(probe, batch)));
            a in w'.kinds && w'.kinds[a] == IoTimeout(f, p.call, p.fd, p.e) &&
            (TimerTask(a) in w'.queue <==> p.since + p.to <= w.now || WentBack(w))
  {
    hide Inv, Step, WentBack, I.Faithful;
    ParkedAtIdle(w, f);
    IdleMeans(w, probe, batch);
    assert WentOff(w, Step(w, Idle(probe, batch)), w.fibers[f].timer.value);
  }

  /** A timeout callback at the head: no other step can take it; its fiber is still
      parked behind it; and if the kernel lets its call through it marks the wait and
      leaves the fiber in the queue, once. */
  lemma TimeoutQueues(w: World, a: TimerId, f: FiberId)
    requires Full(w) && NobodyRuns(w) && w.queue != [] && w.queue[0] == TimerTask(a)
    requires a in w.kinds && w.kinds[a].IoTimeout? && w.kinds[a].f == f
    ensures Legal(w, RunTimeout(true)) && forall b :: TakesHead(b) && Fits(w, b) ==> b.RunTimeout?
    ensures f in w.fibers && w.fibers[f].Parked? && w.fibers[f].timer == Some(a) && w.fibers[f].call == w.kinds[a].call
    ensures var w' := Step(w, RunTimeout(true));
            Full(w') && f in w'.fibers && w'.fibers[f] == w.fibers[f] && FiberTask(f) in w'.queue &&
            w.fibers[f].call in w'.calls && w'.calls[w.fibers[f].call] == Call(f, true)
  {
    hide Inv, Located, InQueue, DoTimeout, Step, Takes;
    InQueueMeans(w, TimerTask(a));
    TimeoutLive(w, a);
    FullStep(w, RunTimeout(true));
    StillSuspended(w, RunTimeout(true), f);
    TimeoutMarksCall(w, a);
    if InQueue(w, FiberTask(f)) == 0 {
      WakesExactly(w, RunTimeout(true), f);
      TakesOwn(w, a);
    } else {
      RequeueCounts(w, RunTimeout(true), f);
    }
    InQueueMeans(Step(w, RunTimeout(true)), FiberTask(f));
  }

  lemma TakesOwn(w: World, a: TimerId)
    requires w.queue != [] && w.queue[0] == TimerTask(a) && a in w.kinds && w.kinds[a].IoTimeout?
    ensures Takes(w, RunTimeout(true), w.kinds[a].fd, w.kinds[a].e)
  {
  }

  lemma TimeoutMarksCall(w: World, a: TimerId)
    requires w.queue != [] && w.queue[0] == TimerTask(a) && a in w.kinds && w.kinds[a].IoTimeout?
    requires w.kinds[a].call in w.calls && !w.calls[w.kinds[a].call].cancelled
    ensures var c := w.kinds[a].call;
            Step(w, RunTimeout(true)).calls == w.calls[c := w.calls[c].(cancelled := true)]
  {
    hide I.CancelEvent, TasksOf;
  }

  /** A fiber that is queued is not resumed before it is at the head. */
  lemma {:induction false} NotYet(w: World, acts: seq<Action>, f: FiberId, j: nat)
    requires Inv(w) && LegalRun(w, acts) && Suspended(w, f) && j < |w.queue| && w.queue[j] == FiberTask(f) && HeadTakes(acts) <= j
    ensures Undisturbed(w, acts, f)
    decreases |acts|
  {
    hide Inv, Legal, Step, Fits, Suspended;
    if acts != [] {
      LegalFits(w, acts[0]);
      StepInv(w, acts[0]);
      OneStepOn(w, acts[0], j);
      if Resumes(w, acts[0], f) {
        AtMostOnce(w, f);
        QueuedTwice(w, f, j);
      }
      StillSuspended(w, acts[0], f);
      NotYet(Step(w, acts[0]), acts[1..], f, if TakesHead(acts[0]) then j - 1 else j);
    }
  }

  lemma QueuedTwice(w: World, f: FiberId, j: nat)
    requires 0 < j < |w.queue| && w.queue[0] == w.queue[j] == FiberTask(f)
    ensures InQueue(w, FiberTask(f)) >= 2
  {
    assert w.queue == [w.queue[0]] + w.queue[1..];
    assert w.queue[1..][j - 1] == FiberTask(f);
    assert multiset(w.queue) == multiset{w.queue[0]} + multiset(w.queue[1..]);
  }

  /** A wait that was timed out stays so until its fiber is resumed. */
  lemma MarkKept(w: World, a: Action, f: FiberId, c: CallId)
    requires Legal(w, a) && Suspended(w, f) && !Resumes(w, a, f) && c in w.calls && w.calls[c] == Call(f, true)
    requires w.fibers[f].Parked? && w.fibers[f].call == c
    requires forall g :: g in w.fibers && g != f && w.fibers[g].Parked? && w.fibers[g].call in w.calls ==> w.fibers[g].call != c
    ensures c in Step(w, a).calls && Step(w, a).calls[c] == Call(f, true)
  {
    hide T.DoAdd, I.AddEvent, I.CancelEvent, I.CancelAll, I.Faithful, T.Step, DoPark, DoTimeout, DoResume, DoIdle, WithIo;
    match a
    case RunTimeout(allowed) => TimeoutFields(Rest(w), w.queue[0].a, allowed);
    case Resume => ResumeFields(Rest(w), w.queue[0].f);
    case Park(g, fd, e, to, call, timer, allowed) => ParkFields(w, g, fd, e, to, call, timer, allowed);
    case CancelEvent(fd, e, allowed) => IoFields(w, I.CancelEvent(w.io, fd, e, allowed).0);
    case CancelAll(fd, allowed) => IoFields(w, I.CancelAll(w.io, fd, allowed).0);
    case Idle(probe, batch) => IdleFields(w, probe, batch);
    case _ =>
  }

  lemma OwnCall(w: World, f: FiberId, c: CallId)
    requires Inv(w) && c in w.calls && w.calls[c].owner == f
    ensures forall g :: g in w.fibers && g != f && w.fibers[g].Parked? && w.fibers[g].call in w.calls ==> w.fibers[g].call != c
  {
    hide Sound, TimeoutsFirst, OneRuns, TimerOk, Tokens;
    forall g | g in w.fibers && g != f && w.fibers[g].Parked?
      ensures w.fibers[g].call != c
    {
      assert FiberOk(w, g);
    }
  }

  lemma {:induction false} MarkRun(w: World, acts: seq<Action>, f: FiberId, c: CallId)
    requires Inv(w) && LegalRun(w, acts) && Suspended(w, f) && Undisturbed(w, acts, f)
    requires w.fibers[f].Parked? && w.fibers[f].call == c && c in w.calls && w.calls[c] == Call(f, true)
    ensures var end := Run(w, acts); f in end.fibers && end.fibers[f] == w.fibers[f] && c in end.calls && end.calls[c] == Call(f, true)
    decreases |acts|
  {
    hide Inv, Legal, Step, Fits, Resumes;
    if acts != [] {
      LegalFits(w, acts[0]);
      StepInv(w, acts[0]);
      StillSuspended(w, acts[0], f);
      OwnCall(w, f, c);
      MarkKept(w, acts[0], f, c);
      MarkRun(Step(w, acts[0]), acts[1..], f, c);
    }
  }

  /** A wait times out: an idle stretch at the end of its time or later queues the
      callback, somewhere at `i`; after i more takes that is the next to run; with
      the kernel's leave it marks the wait and has the fiber in the queue, somewhere
      at `j`; after j more takes the fiber is the next to run, and its call fails. */
  lemma WaitTimesOut(w: World, probe: nat, batch: seq<I.Report>, f: FiberId, i: nat, first: seq<Action>, j: nat, second: seq<Action>)
    requires Full(w) && Legal(w, Idle(probe, batch)) && f in w.fibers && w.fibers[f].Parked? && w.fibers[f].timer.Some?
    requires w.fibers[f].call in w.calls && !w.calls[w.fibers[f].call].cancelled
    requires w.fibers[f].since + w.fibers[f].to <= w.now
    requires var w1 := Step(w, Idle(probe, batch));
             i < |w1.queue| && w1.queue[i] == TimerTask(w.fibers[f].timer.value) && LegalRun(w1, first) && HeadTakes(first) == i &&
             NobodyRuns(Run(w1, first))
    ensures TimerTask(w.fibers[f].timer.value) in Step(w, Idle(probe, batch)).queue
    ensures var w2 := Run(Step(w, Idle(probe, batch)), first);
            Legal(w2, RunTimeout(true)) && (forall b :: TakesHead(b) && Fits(w2, b) ==> b.RunTimeout?) &&
            var w3 := Step(w2, RunTimeout(true));
            FiberTask(f) in w3.queue &&
            (j < |w3.queue| && w3.queue[j] == FiberTask(f) && LegalRun(w3, second) && HeadTakes(second) == j ==>
               var w4 := Run(w3, second);
               Fits(w4, Resume) && (forall b :: TakesHead(b) && Fits(w4, b) ==> b == Resume) &&
               Runs(Step(w4, Resume), f) &&
               (NobodyRuns(w4) ==> w.fibers[f].call !in Step(w4, Resume).calls))
  {
    hide Full, Inv, Step, WentBack, I.Faithful, Fits, Runs, Legal;
    FullIs(w);
    LegalFits(w, Idle(probe, batch));
    WaitGoesOff(w, probe, batch, f);
    FullStep(w, Idle(probe, batch));
    var a, w1 := w.fibers[f].timer.value, Step(w, Idle(probe, batch));
    FullIs(w1);
    Advances(w1, first, i);
    KindsKept(w1, first, a);
    RunFull(w1, first);
    var w2 := Run(w1, first);
    TimeoutQueues(w2, a, f);
    LegalFits(w2, RunTimeout(true));
    var w3 := Step(w2, RunTimeout(true));
    if j < |w3.queue| && w3.queue[j] == FiberTask(f) && LegalRun(w3, second) && HeadTakes(second) == j {
      FullIs(w3);
      Reaches(w3, second, f, j);
      Failed(w3, second, f, j);
    }
  }

  lemma FullIs(w: World)
    requires Full(w)
    ensures Inv(w)
  {
  }

  lemma Failed(w: World, acts: seq<Action>, f: FiberId, j: nat)
    requires Inv(w) && LegalRun(w, acts) && f in w.fibers && w.fibers[f].Parked?
    requires w.fibers[f].call in w.calls && w.calls[w.fibers[f].call] == Call(f, true)
    requires j < |w.queue| && w.queue[j] == FiberTask(f) && HeadTakes(acts) == j
    ensures var end := Run(w, acts); NobodyRuns(end) ==> Fits(end, Resume) && w.fibers[f].call !in Step(end, Resume).calls
  {
    hide Inv, Step;
    NotYet(w, acts, f, j);
    MarkRun(w, acts, f, w.fibers[f].call);
    InvRun(w, acts);
    Advances(w, acts, j);
    if NobodyRuns(Run(w, acts)) {
      ResumeOutcome(Run(w, acts));
    }
  }

  // ------------------------------------------------------------ the other steps

  /** A one-shot or recurring timer with this period from now, carrying its own
      callback; the other timers are as they were. */
  ghost predicate NewlySet(w: World, tm: T.State, a: TimerId, ms: nat, recurring: bool) {
    && a in tm.info && a in tm.order
    && tm.info[a] == T.Rec(recurring, ms, (w.now + ms) % 0x1_0000_0000_0000_0000, Some(a))
    && C.OthersKept(w.tm, tm, a)
  }

  lemma NewlyAdded(w: World, a: TimerId, ms: nat, recurring: bool)
    requires Sound(w) && a !in w.kinds
    ensures NewlySet(w, T.DoAdd(w.tm, a, ms, Some(a), recurring, w.now).0, a, ms, recurring)
  {
    hide T.Inv, I.Inv, T.DoAdd, C.OthersKept, C.WokenFor;
    C.AddMeans(w.tm, a, ms, Some(a), recurring, w.now);
  }

  /** A wait that is let through: the fiber waits for the event, behind a timer for
      the end of the wait if there is one, and its call is open. */
  lemma ParkMeans(w: World, f: FiberId, fd: nat, e: I.Event, to: Option<nat>, call: CallId, timer: TimerId)
    requires Inv(w) && Legal(w, Park(f, fd, e, to, call, timer, true))
    ensures var w' := Step(w, Park(f, fd, e, to, call, timer, true));
            && w'.queue == w.queue && call in w'.calls && w'.calls[call] == Call(f, false)
            && w'.fibers == w.fibers[f := Parked(fd, e, if to.Some? then Some(timer) else None, call, if to.Some? then to.value else 0, w.now)]
            && IC.Who(w'.io, fd, e) == Some(I.Hand(0, I.FiberWaiter(f))) && IC.SameWaiters(w.io, w'.io, fd, {e})
            && (to.None? ==> w'.tm == w.tm && w'.kinds == w.kinds)
            && (to.Some? ==> NewlySet(w, w'.tm, timer, to.value, false) && w'.kinds == w.kinds[timer := IoTimeout(f, call, fd, e)])
  {
    hide Inv, I.Inv, T.DoAdd, I.AddEvent, NewlySet, IC.Who, IC.SameWaiters, T.DoCancel;
    SoundPart(w);
    IoPart(w);
    NotWaited(w, fd, e);
    IC.AddMeans(w.io, fd, e, None, f, 0, true);
    if to.Some? {
      NewlyAdded(w, timer, to.value, false);
    }
  }

  lemma NotWaited(w: World, fd: nat, e: I.Event)
    requires Inv(w) && (fd < |w.io.ctxs| ==> !w.io.ctxs[fd].Has(e))
    ensures IC.Who(w.io, fd, e).None?
  {
    hide Inv, I.Inv, IC.Who;
    IoPart(w);
    IC.WhoIs(w.io, fd, e);
  }

  /** A wait that is refused: the fiber runs on, its call is over, and the timer is
      spent. */
  lemma RefusedMeans(w: World, f: FiberId, fd: nat, e: I.Event, to: Option<nat>, call: CallId, timer: TimerId)
    requires Inv(w) && Legal(w, Park(f, fd, e, to, call, timer, false))
    ensures var w' := Step(w, Park(f, fd, e, to, call, timer, false));
            && w'.queue == w.queue && w'.fibers == w.fibers && w'.calls == w.calls - {call}
            && IC.SameWaiters(w.io, w'.io, fd, {e}) && IC.Who(w'.io, fd, e).None?
            && (to.None? ==> w'.tm == w.tm)
            && (to.Some? ==> timer in w'.tm.info && w'.tm.info[timer].cb == None && timer !in w'.tm.order)
  {
    hide Inv, I.Inv, T.Inv, T.DoAdd, I.AddEvent, IC.Who, IC.SameWaiters, T.DoCancel, T.Deadline;
    SoundPart(w);
    IoPart(w);
    NotWaited(w, fd, e);
    IC.AddMeans(w.io, fd, e, None, f, 0, false);
    if to.Some? {
      TmPart(w);
      TmAdd(w.tm, timer, to.value, false, w.now);
      var tm := T.DoAdd(w.tm, timer, to.value, Some(timer), false, w.now).0;
      C.CancelMeans(tm, timer, w.now);
    }
  }

  lemma TmPart(w: World)
    requires Sound(w)
    ensures T.Inv(w.tm) && w.kinds.Keys == w.tm.info.Keys
  {
  }

  /** A sleep, and a timer of a user. */
  lemma SleepMeans(w: World, f: FiberId, ms: nat, timer: TimerId)
    requires Inv(w) && Legal(w, Sleep(f, ms, timer))
    ensures var w' := Step(w, Sleep(f, ms, timer));
            && w'.queue == w.queue && w'.io == w.io && w'.calls == w.calls && NewlySet(w, w'.tm, timer, ms, false)
            && w'.kinds == w.kinds[timer := Wake(f)]
            && w'.fibers == w.fibers[f := Sleeping(timer, (w.now + ms) % 0x1_0000_0000_0000_0000)]
  {
    hide Inv, T.DoAdd, NewlySet;
    SoundPart(w);
    NewlyAdded(w, timer, ms, false);
  }

  lemma UserTimerMeans(w: World, a: TimerId, ms: nat, recurring: bool)
    requires Inv(w) && Legal(w, AddUserTimer(a, ms, recurring))
    ensures var w' := Step(w, AddUserTimer(a, ms, recurring));
            && w'.queue == w.queue && w'.io == w.io && w'.calls == w.calls && w'.fibers == w.fibers
            && NewlySet(w, w'.tm, a, ms, recurring) && w'.kinds == w.kinds[a := UserTimer]
  {
    hide Inv, T.DoAdd, NewlySet;
    SoundPart(w);
    NewlyAdded(w, a, ms, recurring);
  }

  /** A callback that waits for an event, if the kernel lets it. */
  lemma CallbackEventMeans(w: World, fd: nat, e: I.Event, cb: nat, allowed: bool)
    requires Inv(w) && Legal(w, AddCallbackEvent(fd, e, cb, allowed))
    ensures var w' := Step(w, AddCallbackEvent(fd, e, cb, allowed));
            && w'.queue == w.queue && w'.fibers == w.fibers && w'.tm == w.tm && w'.calls == w.calls
            && IC.SameWaiters(w.io, w'.io, fd, {e})
            && IC.Who(w'.io, fd, e) == if allowed then Some(I.Hand(0, I.CallbackWaiter(cb))) else None
  {
    hide Inv, I.Inv, I.AddEvent, IC.Who, IC.SameWaiters;
    IoPart(w);
    NotWaited(w, fd, e);
    IC.AddMeans(w.io, fd, e, Some(cb), 0, 0, allowed);
  }

  /** Who is handed over is queued, in order; a waiter is queued as what it is. */
  lemma {:induction false} HandedTasks(hs: seq<I.Hand>)
    ensures var ts := TasksOf(hs);
            |ts| == |hs| &&
            forall i :: 0 <= i < |hs| ==>
              ts[i] == TaskFor(hs[i].waiter)
  {
    if hs != [] {
      HandedTasks(hs[..|hs| - 1]);
    }
  }

  /** The task that a waiter becomes. */
  function TaskFor(x: I.Waiter): Task {
    match x
    case FiberWaiter(f) => FiberTask(f)
    case CallbackWaiter(cb) => UserTask(cb)
  }

  /** Whoever waits for an event that an idle stretch is told of is queued by it,
      fibers and callbacks alike. */
  lemma ReportedQueued(w: World, probe: nat, batch: seq<I.Report>, fd: nat, e: I.Event)
    requires Inv(w) && Legal(w, Idle(probe, batch)) && IC.Who(w.io, fd, e).Some? && I.Reported(w.io, batch, fd, e)
    ensures TaskFor(IC.Who(w.io, fd, e).value.waiter) in Step(w, Idle(probe, batch)).queue
  {
    hide Inv, I.Inv, I.DeliverAll, I.Reported, I.Faithful, IC.Who, AfterTimers, DoIdle, TasksOf, I.Handed;
    var h := IC.Who(w.io, fd, e).value;
    IdleInv(w, probe, batch);
    IoPart(w);
    IC.WhoIs(w.io, fd, e);
    I.BatchMoves(w.io, batch, fd, e, h);
    var w1, io := AfterTimers(w, probe), I.DeliverAll(w.io, batch).0;
    AfterFields(w, probe);
    HandedQueued(w1, io, h);
  }

  lemma HandedQueued(w: World, io: I.State, h: I.Hand)
    requires I.Passed(w.io, io, h)
    ensures TaskFor(h.waiter) in WithIo(w, io).queue
  {
    hide TasksOf;
    var hs := NewHands(w.io, io);
    HandedTasks(hs);
    var i :| 0 <= i < |hs| && hs[i] == h;
    assert (w.queue + TasksOf(hs))[|w.queue| + i] == TaskFor(h.waiter);
  }

  /** After a cancellation the waiter, if the kernel let it, is last in the queue. */
  lemma CancelEventMeans(w: World, fd: nat, e: I.Event, allowed: bool)
    requires Inv(w) && Legal(w, CancelEvent(fd, e, allowed))
    ensures var (w', h) := (Step(w, CancelEvent(fd, e, allowed)), IC.Who(w.io, fd, e));
            && w'.tm == w.tm && w'.fibers == w.fibers && w'.calls == w.calls && IC.SameWaiters(w.io, w'.io, fd, {e})
            && (if h.None? || !allowed then w' == w
                else IC.Who(w'.io, fd, e).None? &&
                     w'.queue == w.queue + [TaskFor(h.value.waiter)])
  {
    hide Inv, I.Inv, I.CancelEvent, IC.Who, IC.SameWaiters, TasksOf;
    IoPart(w);
    IC.CancelMeans(w.io, fd, e, allowed);
    var io := I.CancelEvent(w.io, fd, e, allowed).0;
    HandedTasks(NewHands(w.io, io));
    assert w.queue + [] == w.queue;
  }

  /** A callback that is scheduled is the next to start after as many takes as there
      were tasks. */
  lemma ScheduledStarts(w: World, cb: nat, acts: seq<Action>)
    requires Inv(w) && LegalRun(Step(w, Schedule(cb)), acts) && HeadTakes(acts) == |w.queue|
    ensures var end := Run(Step(w, Schedule(cb)), acts);
            end.queue != [] && end.queue[0] == UserTask(cb) &&
            (forall b :: TakesHead(b) && Fits(end, b) ==> b.StartCallback?) &&
            forall g :: Fits(end, StartCallback(g)) && Runs(Step(end, StartCallback(g)), g)
  {
    hide Inv;
    StepInv(w, Schedule(cb));
    Advances(Step(w, Schedule(cb)), acts, |w.queue|);
  }

  /** A fiber that yields READY runs again after as many takes as there were
      tasks. */
  lemma YieldedRuns(w: World, f: FiberId, acts: seq<Action>)
    requires Inv(w) && Legal(w, Yield(f)) && LegalRun(Step(w, Yield(f)), acts) && HeadTakes(acts) == |w.queue|
    ensures var end := Run(Step(w, Yield(f)), acts);
            Fits(end, Resume) && (forall b :: TakesHead(b) && Fits(end, b) ==> b == Resume) && Runs(Step(end, Resume), f)
  {
    hide Inv, Fits, Runs;
    StepInv(w, Yield(f));
    YieldedLast(w, f);
    Reaches(Step(w, Yield(f)), acts, f, |w.queue|);
  }

  lemma YieldedLast(w: World, f: FiberId)
    ensures Step(w, Yield(f)).queue == w.queue + [FiberTask(f)]
  {
  }

  /** When the running fiber parks, sleeps, yields or finishes, nobody runs. */
  lemma FreeAfter(w: World, a: Action)
    requires Inv(w) && Legal(w, a)
    requires a.Sleep? || a.Yield? || a.Finish? || (a.Park? && a.allowed)
    ensures NobodyRuns(Step(w, a))
  {
    hide Inv, T.DoAdd, DoPark;
    OnlyRunner(w, a.f);
    if a.Park? {
      ParkMeans(w, a.f, a.fd, a.e, a.to, a.call, a.timer);
    }
  }

  // ----------------------------------------------------------------- from the start

  /** A fiber of a new manager that sleeps for a second is running again when the
      clock has moved a second on and the idle fiber has looked. */
  lemma SleepRun(now: nat, probe: nat)
    requires now + 1000 < U64
    ensures var (before, after) := (ToSleep(now), ToWake(probe));
            LegalRun(Start(now), before) && LegalRun(Run(Start(now), before), after) &&
            Runs(Run(Run(Start(now), before), after), 0)
  {
    hide Inv, Step, Legal, Runs, LegalRun, Run, I.Initial;
    FallsAsleep(now);
    WakesUp(Run(Start(now), ToSleep(now)), probe);
  }

  function ToSleep(now: nat): seq<Action> {
    [Schedule(0)] + ([StartCallback(0)] + ([Sleep(0, 1000, 0)] + ([Tick(now + 1000)] + [])))
  }

  function ToWake(probe: nat): seq<Action> {
    [Idle(probe, [])] + ([RunWake] + ([Resume] + []))
  }

  /** One fiber, asleep until now, and nothing else. */
  ghost predicate OneAsleep(w: World) {
    && Inv(w) && w.queue == [] && w.kinds == map[0 := Wake(0)]
    && w.fibers == map[0 := Sleeping(0, w.now)]
  }

  lemma FallsAsleep(now: nat)
    requires now + 1000 < U64
    ensures LegalRun(Start(now), ToSleep(now)) && OneAsleep(Run(Start(now), ToSleep(now)))
  {
    hide Inv, I.Initial, T.DoAdd, LegalRun, Run;
    StartInv(now);
    var w0 := Start(now);
    StepInv(w0, Schedule(0));
    var w1 := Step(w0, Schedule(0));
    assert w1.queue == [UserTask(0)];
    StepInv(w1, StartCallback(0));
    var w2 := Step(w1, StartCallback(0));
    SleepMeans(w2, 0, 1000, 0);
    StepInv(w2, Sleep(0, 1000, 0));
    var w3 := Step(w2, Sleep(0, 1000, 0));
    StepInv(w3, Tick(now + 1000));
    var w4 := Step(w3, Tick(now + 1000));
    hide Step, Legal;
    NoActs(w4);
    Cons(w3, Tick(now + 1000), []);
    Cons(w2, Sleep(0, 1000, 0), [Tick(now + 1000)] + []);
    Cons(w1, StartCallback(0), [Sleep(0, 1000, 0)] + ([Tick(now + 1000)] + []));
    Cons(w0, Schedule(0), [StartCallback(0)] + ([Sleep(0, 1000, 0)] + ([Tick(now + 1000)] + [])));
  }

  lemma NoActs(w: World)
    ensures LegalRun(w, []) && Run(w, []) == w
  {
  }

  lemma WakesUp(w: World, probe: nat)
    requires OneAsleep(w)
    ensures LegalRun(w, ToWake(probe)) && Runs(Run(w, ToWake(probe)), 0)
  {
    hide Inv, DoIdle, Runs, DoResume, WentOff, Due, LegalRun, Run;
    assert Legal(w, Idle(probe, []));
    SleeperGoesOff(w, probe, [], 0);
    IdleMeans(w, probe, []);
    StepInv(w, Idle(probe, []));
    var w1 := Step(w, Idle(probe, []));
    AloneInQueue(w, probe);
    WakesLast(w1, 0, 0);
    assert Legal(w1, RunWake);
    StepInv(w1, RunWake);
    var w2 := Step(w1, RunWake);
    assert w2.queue == [FiberTask(0)];
    RunsFromHead(w2, 0);
    assert Legal(w2, Resume);
    var w3 := Step(w2, Resume);
    hide Step, Legal;
    NoActs(w3);
    Cons(w2, Resume, []);
    Cons(w1, RunWake, [Resume] + []);
    Cons(w, Idle(probe, []), [RunWake] + ([Resume] + []));
  }

  lemma AloneInQueue(w: World, probe: nat)
    requires OneAsleep(w) && TimerTask(0) in DoIdle(w, probe, []).queue
    ensures DoIdle(w, probe, []).queue == [TimerTask(0)]
  {
    hide Inv, Sound, Fired, DoIdle;
    SoundPart(w);
    IdleQueue(w, probe);
    FiredDistinct(w, probe);
    FiredKinds(w, probe);
    OnlyZero(Fired(w, probe).1.fired);
    assert [0][..0] == [];
  }

  lemma IdleQueue(w: World, probe: nat)
    requires w.queue == []
    ensures DoIdle(w, probe, []).queue == TimerTasks(Fired(w, probe).1.fired)
  {
    hide T.DoListExpiredCb, T.DoGetNextTimer, TimerTasks;
    assert NewHands(w.io, w.io) == [];
  }

  lemma FiredKinds(w: World, probe: nat)
    requires Sound(w)
    ensures forall a :: a in Fired(w, probe).1.fired ==> a in w.kinds
  {
    hide T.Inv, I.Inv, T.DoListExpiredCb, T.DoGetNextTimer, T.Distinct, T.At;
    TmExpire(w.tm, w.now, probe);
  }

  lemma OnlyZero(xs: seq<nat>)
    requires T.Distinct(xs) && forall x :: x in xs ==> x == 0
    ensures xs == [] || xs == [0]
  {
    FirstTwoDiffer(xs);
    forall i | 0 <= i < |xs|
      ensures xs[i] == 0
    {
      assert xs[i] in xs;
    }
  }

  lemma FirstTwoDiffer(xs: seq<nat>)
    requires T.Distinct(xs)
    ensures |xs| > 1 ==> xs[0] != xs[1]
  {
  }
}
