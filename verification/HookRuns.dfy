// Safety of the park and wake protocol over whole runs.

module HookRuns {
  import opened Common
  import T = TimerSpec
  import I = IoSpec
  import opened HookProtocol

  // ------------------------------------------------------------------ frames

  /** The fiber a timer belongs to. */
  predicate Belongs(k: Kind, own: set<FiberId>) {
    match k
    case IoTimeout(f, _, _, _) => f in own
    case Wake(f) => f in own
    case UserTimer => false
  }

  ghost predicate FibersKept(w: World, w': World, own: set<FiberId>) {
    forall g :: g !in own ==>
      (g in w.fibers <==> g in w'.fibers) && (g in w.fibers ==> w'.fibers[g] == w.fibers[g]) &&
      Tokens(w', g) == Tokens(w, g) && InSlots(w', g) <= InSlots(w, g)
  }

  ghost predicate TimersKept(w: World, w': World, own: set<FiberId>) {
    forall a :: a in w.kinds ==>
      a in w'.kinds && w'.kinds[a] == w.kinds[a] &&
      (w.kinds[a] != UserTimer && !Belongs(w.kinds[a], own) ==>
         Flight(w', a) == Flight(w, a) && T.At(w'.tm.info, a).next == T.At(w.tm.info, a).next &&
         (InQueue(w', TimerTask(a)) > 0 ==>
            InQueue(w, TimerTask(a)) > 0 || a in w'.fired))
  }

  ghost predicate CallsKept(w: World, w': World, own: set<FiberId>) {
    forall c :: c in w.calls && w.calls[c].owner !in own ==> c in w'.calls && w'.calls[c] == w.calls[c]
  }

  /** Nothing changed for the fibers outside `own`. */
  ghost predicate Keeps(w: World, w': World, own: set<FiberId>) {
    FibersKept(w, w', own) && TimersKept(w, w', own) && CallsKept(w, w', own) &&
    (forall a :: a in w.fired ==> a in w'.fired)
  }

  lemma OtherFiber(w: World, w': World, own: set<FiberId>, g: FiberId)
    requires FiberOk(w, g) && Keeps(w, w', own) && g !in own
    ensures FiberOk(w', g)
  {
    hide InSlots, InQueue, Alive, T.At;
  }

  lemma OtherTimer(w: World, w': World, own: set<FiberId>, a: TimerId)
    requires Inv(w) && Keeps(w, w', own) && a in w.kinds && !Belongs(w.kinds[a], own)
    ensures TimerOk(w', a)
  {
    hide Tokens, InSlots, InQueue, Flight, T.At, Sound;
    assert TimerOk(w, a);
    match w.kinds[a]
    case IoTimeout(f, call, fd, e) => OtherArmed(w, w', own, a);
    case _ =>
  }

  lemma OtherArmed(w: World, w': World, own: set<FiberId>, a: TimerId)
    requires Inv(w) && Keeps(w, w', own) && a in w.kinds && w.kinds[a].IoTimeout? && w.kinds[a].f !in own
    ensures a in w'.kinds && w'.kinds[a] == w.kinds[a] && Armed(w', a) == Armed(w, a)
  {
    hide Tokens, InSlots, InQueue, Flight, T.At, Sound;
    assert FiberOk(w, w.kinds[a].f);
  }

  /** A step keeps the invariant when it is right about its own fibers and leaves
      the others alone. */
  lemma InvFrom(w: World, w': World, own: set<FiberId>)
    requires Inv(w) && Keeps(w, w', own)
    requires Sound(w') && TimeoutsFirst(w') && OneRuns(w')
    requires forall f :: f in own ==> FiberOk(w', f)
    requires forall a :: a in w'.kinds && (a !in w.kinds || Belongs(w.kinds[a], own)) ==> TimerOk(w', a)
    ensures Inv(w')
  {
    hide Sound, TimeoutsFirst, OneRuns, Keeps, FiberOk, TimerOk, Belongs;
    forall g: FiberId
      ensures FiberOk(w', g)
    {
      if g !in own {
        assert FiberOk(w, g);
        OtherFiber(w, w', own, g);
      }
    }
    forall a | a in w'.kinds
      ensures TimerOk(w', a)
    {
      if a in w.kinds && !Belongs(w.kinds[a], own) {
        OtherTimer(w, w', own, a);
      }
    }
  }

  /** The timers of a fiber that is not suspended are spent. */
  lemma Quiet(w: World, f: FiberId, a: TimerId)
    requires Inv(w) && a in w.kinds && Belongs(w.kinds[a], {f})
    requires f in w.fibers ==> w.fibers[f] == Running || w.fibers[f] == Ready
    ensures Flight(w, a) == 0
  {
    hide Tokens, InSlots, InQueue, Flight, Sound;
    assert TimerOk(w, a);
  }

  /** A spent timer is right whatever its fiber does, unless it is armed. */
  lemma Spent(w: World, a: TimerId)
    requires a in w.kinds && Flight(w, a) == 0 && (w.kinds[a].IoTimeout? ==> !Armed(w, a))
    ensures TimerOk(w, a)
  {
  }

  // ------------------------------------------------------------- queue edits

  lemma PushCounts(q: seq<Task>, t: Task)
    ensures multiset(q + [t]) == multiset(q) + multiset{t}
  {
  }

  lemma SoundPop(w: World)
    requires Sound(w) && w.queue != []
    ensures Sound(Rest(w))
  {
    hide T.Inv, I.Inv;
  }

  lemma FirstPop(w: World)
    requires TimeoutsFirst(w) && w.queue != []
    ensures TimeoutsFirst(Rest(w))
  {
  }

  /** Taking the head changes only the count of the head. */
  lemma PopCounts(w: World)
    requires w.queue != []
    ensures forall t :: InQueue(w, t) == InQueue(Rest(w), t) + if t == w.queue[0] then 1 else 0
    ensures forall f :: InSlots(Rest(w), f) == InSlots(w, f)
  {
    QueueRest(w.queue);
  }

  lemma SoundPush(w: World, t: Task)
    requires Sound(w) && (t.TimerTask? ==> t.a in w.kinds)
    ensures Sound(w.(queue := w.queue + [t]))
  {
    hide T.Inv, I.Inv;
  }

  lemma FirstPush(w: World, t: Task)
    requires TimeoutsFirst(w) && !t.TimerTask?
    ensures TimeoutsFirst(w.(queue := w.queue + [t]))
  {
    AppendedAfter(w, w.(queue := w.queue + [t]));
  }

  // -------------------------------------------------------- one step at a time

  lemma StartForm(w: World, f: FiberId)
    requires Legal(w, StartCallback(f))
    ensures NobodyRuns(w) && w.queue != [] && f !in w.fibers && (w.queue[0].UserTask? || IsKind(w, w.queue[0], UserTimer))
    ensures Fits(w, StartCallback(f)) && Step(w, StartCallback(f)) == Rest(w).(fibers := w.fibers[f := Running])
  {
  }

  lemma StartCallbackInv(w: World, f: FiberId)
    requires Inv(w) && Legal(w, StartCallback(f))
    ensures Inv(Step(w, StartCallback(f)))
  {
    hide T.Inv, I.Inv, Sound, TimeoutsFirst, Alive, InSlots, InQueue, T.At, Step, Legal, Fits;
    StartForm(w, f);
    var w' := Step(w, StartCallback(f));
    SoundPop(w);
    FirstPop(w);
    PopCounts(w);
    StatusOnly(Rest(w), w'.fibers, w.calls);
    assert FiberOk(w, f);
    forall a | a in w.kinds && Belongs(w.kinds[a], {f})
      ensures TimerOk(w', a)
    {
      Quiet(w, f, a);
      Spent(w', a);
    }
    InvFrom(w, w', {f});
  }

  /** What does not depend on the fibers and their calls. */
  lemma StatusOnly(w: World, fibers: map<FiberId, Status>, calls: map<CallId, Call>)
    ensures var w' := w.(fibers := fibers, calls := calls);
            Sound(w') == Sound(w) && TimeoutsFirst(w') == TimeoutsFirst(w) &&
            (forall f :: InSlots(w', f) == InSlots(w, f)) &&
            (forall t :: InQueue(w', t) == InQueue(w, t))
  {
  }

  lemma FiredTime(w: World, a: TimerId)
    requires Sound(w) && a in w.fired
    ensures a in w.kinds && (w.kinds[a] != UserTimer ==> InTime(w.fired[a], T.At(w.tm.info, a).next))
  {
  }

  lemma NotFired(w: World, a: TimerId)
    requires Sound(w) && a !in w.kinds
    ensures a !in w.fired
  {
  }

  /** A queued timeout is that of a fiber still waiting behind it. */
  lemma TimeoutLive(w: World, a: TimerId)
    requires Inv(w) && a in w.kinds && w.kinds[a].IoTimeout? && InQueue(w, TimerTask(a)) > 0
    ensures var k := w.kinds[a];
            Armed(w, a) && k.call == w.fibers[k.f].call && k.fd == w.fibers[k.f].fd && k.e == w.fibers[k.f].e &&
            w.calls[k.call].owner == k.f && Flight(w, a) == 1 && InQueue(w, TimerTask(a)) == 1 &&
            a in w.fired && InTime(w.fired[a], w.fibers[k.f].since + w.fibers[k.f].to)
  {
    hide Tokens, InSlots, InQueue, Alive, Sound, T.At, InTime;
    assert TimerOk(w, a);
    assert FiberOk(w, w.kinds[a].f);
    FiredTime(w, a);
  }

  /** The queue without the timeout callback, and its call marked. */
  function Marked(w: World, a: TimerId): World
    requires w.queue != [] && a in w.kinds && w.kinds[a].IoTimeout? && w.kinds[a].call in w.calls
  {
    Rest(w).(calls := w.calls[w.kinds[a].call := w.calls[w.kinds[a].call].(cancelled := true)])
  }

  lemma MarkedInv(w: World, a: TimerId)
    requires Inv(w) && w.queue != [] && w.queue[0] == TimerTask(a) && a in w.kinds && w.kinds[a].IoTimeout?
    requires InQueue(w, TimerTask(a)) > 0
    ensures w.kinds[a].call in w.calls && Inv(Marked(w, a))
  {
    hide T.Inv, I.Inv, Sound, TimeoutsFirst, InSlots, InQueue, T.At;
    TimeoutLive(w, a);
    var f := w.kinds[a].f;
    var w' := Marked(w, a);
    SoundPop(w);
    FirstPop(w);
    PopCounts(w);
    StatusOnly(Rest(w), w.fibers, w'.calls);
    assert FiberOk(w, f);
    forall b | b in w.kinds && Belongs(w.kinds[b], {f})
      ensures TimerOk(w', b)
    {
      assert TimerOk(w, b);
      Spent(w', b);
    }
    SameRunner(w, w');
    InvFrom(w, w', {f});
  }

  lemma HeadQueued(w: World)
    requires w.queue != []
    ensures InQueue(w, w.queue[0]) > 0
  {
  }

  lemma RunTimeoutInv(w: World, allowed: bool)
    requires Inv(w) && Legal(w, RunTimeout(allowed))
    ensures Inv(Step(w, RunTimeout(allowed)))
    ensures var a := w.queue[0].a;
            w.kinds[a].call in w.calls &&
            Step(w, RunTimeout(allowed)) ==
              WithIo(Marked(w, a), I.CancelEvent(w.io, w.kinds[a].fd, w.kinds[a].e, allowed).0)
  {
    hide Inv, I.CancelEvent, InQueue, WithIo;
    var a := w.queue[0].a;
    HeadQueued(w);
    MarkedInv(w, a);
    TimeoutMarks(w, a);
    IoPart(Marked(w, a));
    I.CancelEventInv(w.io, w.kinds[a].fd, w.kinds[a].e, allowed);
    IoStep(Marked(w, a), I.CancelEvent(w.io, w.kinds[a].fd, w.kinds[a].e, allowed).0);
  }

  lemma TimeoutMarks(w: World, a: TimerId)
    requires Inv(w) && a in w.kinds && w.kinds[a].IoTimeout? && InQueue(w, TimerTask(a)) > 0
    ensures w.kinds[a].call in w.calls && !w.calls[w.kinds[a].call].cancelled
  {
    TimeoutLive(w, a);
  }

  lemma IoPart(w: World)
    requires Inv(w)
    ensures I.Inv(w.io)
  {
  }

  lemma WakeForm(w: World)
    requires Legal(w, RunWake)
    ensures w.queue != [] && w.queue[0].TimerTask? && w.queue[0].a in w.kinds && w.kinds[w.queue[0].a].Wake?
    ensures Fits(w, RunWake) && Step(w, RunWake) == Rest(w).(queue := w.queue[1..] + [FiberTask(w.kinds[w.queue[0].a].f)])
  {
  }

  lemma RunWakeInv(w: World)
    requires Inv(w) && Legal(w, RunWake)
    ensures Inv(Step(w, RunWake))
  {
    hide T.Inv, I.Inv, Sound, TimeoutsFirst, InSlots, InQueue, T.At, Alive, Step, Legal, Fits;
    WakeForm(w);
    var a := w.queue[0].a;
    var f := w.kinds[a].f;
    HeadQueued(w);
    assert TimerOk(w, a);
    assert FiberOk(w, f);
    var w1 := Rest(w);
    SoundPop(w);
    FirstPop(w);
    PopCounts(w);
    var w' := Step(w, RunWake);
    SoundPush(w1, FiberTask(f));
    FirstPush(w1, FiberTask(f));
    PushedCounts(w1, FiberTask(f));
    forall b | b in w.kinds && Belongs(w.kinds[b], {f})
      ensures TimerOk(w', b)
    {
      assert TimerOk(w, b);
    }
    SameRunner(w, w');
    InvFrom(w, w', {f});
  }

  lemma PushedCounts(w: World, t: Task)
    ensures var w' := w.(queue := w.queue + [t]);
            (forall u :: InQueue(w', u) == InQueue(w, u) + if u == t then 1 else 0) &&
            (forall f :: InSlots(w', f) == InSlots(w, f))
  {
    PushCounts(w.queue, t);
  }

  // --------------------------------------------------------------- resuming

  /** At the head of the queue a fiber stands nowhere else, its timer is set
      exactly when it was not timed out, and no timeout callback is queued. */
  lemma AtHead(w: World, f: FiberId)
    requires Inv(w) && w.queue != [] && w.queue[0] == FiberTask(f)
    ensures f in w.fibers && w.fibers[f] != Running
    ensures InSlots(w, f) == 0 && InQueue(w, FiberTask(f)) == 1
    ensures forall a :: a in w.kinds && w.kinds[a].IoTimeout? ==> InQueue(w, TimerTask(a)) == 0
    ensures w.fibers[f].Sleeping? ==> Flight(w, w.fibers[f].behind) == 0
    ensures var p := w.fibers[f];
            p.Parked? ==>
              p.call in w.calls && w.calls[p.call].owner == f &&
              (p.timer.None? ==> !w.calls[p.call].cancelled) &&
              (p.timer.Some? ==>
                 p.timer.value in w.kinds && w.kinds[p.timer.value] == IoTimeout(f, p.call, p.fd, p.e) &&
                 (Alive(w.tm, p.timer.value) <==> !w.calls[p.call].cancelled) &&
                 (w.calls[p.call].cancelled ==>
                    p.timer.value in w.fired && InTime(w.fired[p.timer.value], p.since + p.to)))
  {
    hide InSlots, Sound, Alive, T.At;
    HeadQueued(w);
    NoTimeoutBehind(w);
    hide InQueue, TimeoutsFirst;
    assert FiberOk(w, f);
    var p := w.fibers[f];
    if p.Parked? && p.timer.Some? {
      assert TimerOk(w, p.timer.value);
      if p.timer.value in w.fired {
        FiredTime(w, p.timer.value);
      }
    }
  }

  lemma NoTimeoutBehind(w: World)
    requires TimeoutsFirst(w) && w.queue != [] && w.queue[0].FiberTask?
    ensures forall a :: a in w.kinds && w.kinds[a].IoTimeout? ==> InQueue(w, TimerTask(a)) == 0
  {
    forall a | a in w.kinds && w.kinds[a].IoTimeout?
      ensures TimerTask(a) !in w.queue
    {
      if j :| 0 <= j < |w.queue| && w.queue[j] == TimerTask(a) {
        assert IsTimeout(w, w.queue[j]);
      }
    }
  }

  /** A cancelled timer, among the others. */
  lemma CancelledTimer(w: World, a: TimerId)
    requires Sound(w) && a in w.kinds
    ensures var w' := w.(tm := T.DoCancel(w.tm, a).0);
            Sound(w') && (forall b :: Alive(w'.tm, b) <==> Alive(w.tm, b) && b != a) &&
            (forall b :: T.At(w'.tm.info, b).next == T.At(w.tm.info, b).next)
  {
    hide T.Inv, I.Inv, T.DoCancel;
    TmCancel(w.tm, a);
  }

  lemma TimersOnly(w: World, tm: T.State)
    ensures var w' := w.(tm := tm);
            TimeoutsFirst(w') == TimeoutsFirst(w) &&
            (forall f :: InSlots(w', f) == InSlots(w, f)) &&
            (forall t :: InQueue(w', t) == InQueue(w, t))
  {
  }

  /** The queue without its head, and the timer of its fiber cancelled. */
  function Unarmed(w: World, timer: Option<TimerId>): World
    requires w.queue != []
  {
    if timer.Some? then Rest(w).(tm := T.DoCancel(w.tm, timer.value).0) else Rest(w)
  }

  lemma UnarmedSame(w: World, timer: Option<TimerId>)
    requires Inv(w) && w.queue != [] && (timer.Some? ==> timer.value in w.kinds)
    ensures var w' := Unarmed(w, timer);
            w'.fibers == w.fibers && w'.calls == w.calls && w'.kinds == w.kinds && w'.now == w.now && w'.fired == w.fired &&
            Sound(w') && TimeoutsFirst(w') &&
            (forall f :: InSlots(w', f) == InSlots(w, f)) &&
            (forall t :: InQueue(w, t) == InQueue(w', t) + if t == w.queue[0] then 1 else 0) &&
            (forall b: TimerId :: Alive(w'.tm, b) <==> Alive(w.tm, b) && timer != Some(b)) &&
            (forall b :: T.At(w'.tm.info, b).next == T.At(w.tm.info, b).next)
  {
    hide Sound, TimeoutsFirst, T.DoCancel, InSlots, InQueue, Alive, T.At;
    SoundPop(w);
    FirstPop(w);
    PopCounts(w);
    if timer.Some? {
      CancelledTimer(Rest(w), timer.value);
      TimersOnly(Rest(w), T.DoCancel(w.tm, timer.value).0);
    }
  }

  function TimerOf(s: Status): Option<TimerId> {
    if s.Parked? then s.timer else None
  }

  lemma ResumeForm(w: World, f: FiberId)
    requires Inv(w) && w.queue != [] && w.queue[0] == FiberTask(f)
    ensures f in w.fibers
    ensures var s := w.fibers[f];
            DoResume(Rest(w), f) ==
              Unarmed(w, TimerOf(s)).(
                fibers := w.fibers[f := Running],
                calls := if s.Parked? && s.call in w.calls && w.calls[s.call].cancelled then w.calls - {s.call} else w.calls)
  {
    AtHead(w, f);
    hide Inv, T.DoCancel;
  }

  lemma ResumeStep(w: World)
    requires Legal(w, Resume)
    ensures w.queue != [] && w.queue[0].FiberTask? && NobodyRuns(w)
    ensures Step(w, Resume) == DoResume(Rest(w), w.queue[0].f)
  {
  }

  lemma ResumeKeeps(w: World, f: FiberId, w1: World, w': World)
    requires Inv(w) && w.queue != [] && w.queue[0] == FiberTask(f) && f in w.fibers && w1 == Unarmed(w, TimerOf(w.fibers[f]))
    requires w' == w1.(fibers := w.fibers[f := Running], calls := w'.calls)
    requires w'.calls == w.calls || exists c :: c in w.calls && w.calls[c].owner == f && w'.calls == w.calls - {c}
    ensures Keeps(w, w', {f})
  {
    hide Sound, TimeoutsFirst, T.DoCancel, InSlots, InQueue, Alive, T.At, Unarmed, FiberOk, TimerOk;
    if TimerOf(w.fibers[f]).Some? {
      ResumeTimer(w, f);
    }
    UnarmedSame(w, TimerOf(w.fibers[f]));
    StatusOnly(w1, w'.fibers, w'.calls);
  }

  lemma ResumeTimer(w: World, f: FiberId)
    requires Inv(w) && f in w.fibers && TimerOf(w.fibers[f]).Some?
    ensures var a := TimerOf(w.fibers[f]).value; a in w.kinds && Belongs(w.kinds[a], {f})
  {
    assert FiberOk(w, f);
  }

  lemma ResumeInv(w: World)
    requires Inv(w) && Legal(w, Resume)
    ensures Inv(Step(w, Resume))
  {
    hide Legal, Step, Fits, Sound, TimeoutsFirst, T.DoCancel, InSlots, InQueue, Alive, T.At, DoResume, Unarmed;
    ResumeStep(w);
    var f := w.queue[0].f;
    AtHead(w, f);
    ResumeForm(w, f);
    var s := w.fibers[f];
    UnarmedSame(w, TimerOf(s));
    var w1 := Unarmed(w, TimerOf(s));
    var w' := DoResume(Rest(w), f);
    StatusOnly(w1, w'.fibers, w'.calls);
    ResumeKeeps(w, f, w1, w');
    hide Keeps;
    forall b | b in w.kinds && Belongs(w.kinds[b], {f})
      ensures TimerOk(w', b)
    {
      assert TimerOk(w, b);
      Spent(w', b);
    }
    InvFrom(w, w', {f});
  }

  // ---------------------------------------------------------------- parking

  /** A new timer of the protocol, among the others. */
  lemma NewTimer(w: World, a: TimerId, ms: nat, recurring: bool, k: Kind)
    requires Sound(w) && a !in w.kinds && (k != UserTimer ==> !recurring)
    ensures var w' := w.(tm := T.DoAdd(w.tm, a, ms, Some(a), recurring, w.now).0, kinds := w.kinds[a := k]);
            Sound(w') && (forall b: TimerId :: Alive(w'.tm, b) <==> Alive(w.tm, b) || b == a) &&
            (forall b: TimerId :: b != a ==> T.At(w'.tm.info, b) == T.At(w.tm.info, b)) &&
            T.At(w'.tm.info, a).next == T.Deadline(w.now, ms) && !Alive(w.tm, a) &&
            InQueue(w', TimerTask(a)) == 0
  {
    hide T.Inv, I.Inv, T.DoAdd, T.Deadline;
    TmAdd(w.tm, a, ms, recurring, w.now);
    assert TimerTask(a) !in w.queue;
  }

  lemma NewTimerFirst(w: World, a: TimerId, tm: T.State, k: Kind)
    requires Sound(w) && TimeoutsFirst(w) && a !in w.kinds
    ensures var w' := w.(tm := tm, kinds := w.kinds[a := k]);
            TimeoutsFirst(w') &&
            (forall f :: InSlots(w', f) == InSlots(w, f)) &&
            (forall t :: InQueue(w', t) == InQueue(w, t))
  {
    hide T.Inv, I.Inv;
    var w' := w.(tm := tm, kinds := w.kinds[a := k]);
    forall i, j | 0 <= i < j < |w'.queue| && IsTimeout(w', w'.queue[j])
      ensures !w'.queue[i].FiberTask?
    {
      assert w.queue[j] in w.queue;
      assert IsTimeout(w, w.queue[j]);
    }
  }

  lemma SleepForm(w: World, f: FiberId, ms: nat, timer: TimerId)
    requires Legal(w, Sleep(f, ms, timer))
    ensures Runs(w, f) && timer !in w.kinds
    ensures Step(w, Sleep(f, ms, timer)) ==
              w.(tm := T.DoAdd(w.tm, timer, ms, Some(timer), false, w.now).0,
                 kinds := w.kinds[timer := Wake(f)],
                 fibers := w.fibers[f := Sleeping(timer, T.Deadline(w.now, ms))])
  {
    hide T.DoAdd, T.Deadline;
  }

  lemma SleepFacts(w: World, f: FiberId, ms: nat, timer: TimerId)
    requires Inv(w) && Legal(w, Sleep(f, ms, timer))
    ensures var w' := Step(w, Sleep(f, ms, timer));
            Sound(w') && TimeoutsFirst(w') && Keeps(w, w', {f}) &&
            (forall g :: InSlots(w', g) == InSlots(w, g)) && (forall t :: InQueue(w', t) == InQueue(w, t)) &&
            (forall b: TimerId :: Alive(w'.tm, b) <==> Alive(w.tm, b) || b == timer) &&
            T.At(w'.tm.info, timer).next == T.Deadline(w.now, ms) && InQueue(w', TimerTask(timer)) == 0 && !Alive(w.tm, timer)
  {
    hide Sound, TimeoutsFirst, T.DoAdd, T.Deadline, InSlots, InQueue, Alive, T.At, Step, Legal, FiberOk, TimerOk;
    SleepForm(w, f, ms, timer);
    var w' := Step(w, Sleep(f, ms, timer));
    NewTimer(w, timer, ms, false, Wake(f));
    NewTimerFirst(w, timer, w'.tm, Wake(f));
    StatusOnly(w.(tm := w'.tm, kinds := w'.kinds), w'.fibers, w'.calls);
  }

  lemma SleepInv(w: World, f: FiberId, ms: nat, timer: TimerId)
    requires Inv(w) && Legal(w, Sleep(f, ms, timer))
    ensures Inv(Step(w, Sleep(f, ms, timer)))
  {
    hide Sound, TimeoutsFirst, T.DoAdd, T.Deadline, InSlots, InQueue, Alive, T.At, Step, Legal, Keeps;
    SleepForm(w, f, ms, timer);
    SleepFacts(w, f, ms, timer);
    var w' := Step(w, Sleep(f, ms, timer));
    assert FiberOk(w, f);
    forall b | b in w'.kinds && (b !in w.kinds || Belongs(w.kinds[b], {f}))
      ensures TimerOk(w', b)
    {
      if b in w.kinds {
        Quiet(w, f, b);
        Spent(w', b);
      }
    }
    SameRunner(w, w');
    InvFrom(w, w', {f});
  }

  lemma AddUserTimerInv(w: World, a: TimerId, ms: nat, recurring: bool)
    requires Inv(w) && Legal(w, AddUserTimer(a, ms, recurring))
    ensures Inv(Step(w, AddUserTimer(a, ms, recurring)))
  {
    hide Sound, TimeoutsFirst, T.DoAdd, T.Deadline, InSlots, InQueue, Alive, T.At;
    var w' := Step(w, AddUserTimer(a, ms, recurring));
    NewTimer(w, a, ms, recurring, UserTimer);
    NewTimerFirst(w, a, w'.tm, UserTimer);
    SameRunner(w, w');
    InvFrom(w, w', {});
  }

  /** One more waiter in the slots. */
  lemma Registers(w: World, io: I.State, added: seq<I.Hand>)
    requires Sound(w) && I.Inv(io) && (forall h :: h in added ==> h.scheduler == 0)
    requires io.added == w.io.added + added && io.handed == w.io.handed && io.deleted == w.io.deleted
    ensures var w' := w.(io := io);
            Sound(w') && TimeoutsFirst(w') == TimeoutsFirst(w) &&
            (forall f :: InSlots(w', f) == InSlots(w, f) + multiset(added)[Waiter(f)]) &&
            (forall t :: InQueue(w', t) == InQueue(w, t))
  {
    hide T.Inv, I.Registered, I.BitsSet, I.CtxOk, I.KernelAgrees;
    forall f
      ensures I.Registered(io.ctxs)[Waiter(f)] == I.Registered(w.io.ctxs)[Waiter(f)] + multiset(added)[Waiter(f)]
    {
      assert multiset(w.io.added + added)[Waiter(f)] == multiset(w.io.added)[Waiter(f)] + multiset(added)[Waiter(f)];
      CountOf(w.io, Waiter(f));
      CountOf(io, Waiter(f));
    }
  }

  lemma CountOf(io: I.State, h: I.Hand)
    requires I.Conserved(io)
    ensures multiset(io.added)[h] == I.Registered(io.ctxs)[h] + multiset(io.handed)[h] + multiset(io.deleted)[h]
  {
    hide I.Registered;
  }

  lemma AddCallbackEventInv(w: World, fd: nat, e: I.Event, cb: nat, allowed: bool)
    requires Inv(w) && Legal(w, AddCallbackEvent(fd, e, cb, allowed))
    ensures Inv(Step(w, AddCallbackEvent(fd, e, cb, allowed)))
  {
    hide Sound, TimeoutsFirst, I.AddEvent, I.Inv, InSlots, InQueue, Alive, T.At;
    IoPart(w);
    var w' := Step(w, AddCallbackEvent(fd, e, cb, allowed));
    I.AddEventInv(w.io, fd, e, Some(cb), 0, 0, allowed);
    var added := if allowed then [I.Hand(0, I.CallbackWaiter(cb))] else [];
    Registers(w, w'.io, added);
    SameRunner(w, w');
    InvFrom(w, w', {});
  }

  lemma TimedSame(w: World, f: FiberId, fd: nat, e: I.Event, to: Option<nat>, call: CallId, timer: TimerId)
    requires Inv(w) && timer !in w.kinds && (to.Some? ==> w.now + to.value < U64)
    ensures var w' := Timed(w, f, fd, e, to, call, timer);
            Sound(w') && TimeoutsFirst(w') && w'.io == w.io && w'.fibers == w.fibers && w'.calls == w.calls &&
            w'.queue == w.queue && w'.now == w.now && w'.fired == w.fired &&
            w'.kinds == (if to.Some? then w.kinds[timer := IoTimeout(f, call, fd, e)] else w.kinds) &&
            (forall g :: InSlots(w', g) == InSlots(w, g)) &&
            (forall t :: InQueue(w', t) == InQueue(w, t)) &&
            (forall b: TimerId :: Alive(w'.tm, b) <==> Alive(w.tm, b) || (to.Some? && b == timer)) &&
            (forall b: TimerId :: b in w.kinds ==> T.At(w'.tm.info, b) == T.At(w.tm.info, b)) &&
            (to.Some? ==> T.At(w'.tm.info, timer).next == w.now + to.value && !Alive(w.tm, timer) &&
                          InQueue(w', TimerTask(timer)) == 0)
  {
    hide Sound, TimeoutsFirst, FiberOk, TimerOk, T.DoAdd, T.Deadline, InSlots, InQueue, Alive, T.At;
    if to.Some? {
      NewTimer(w, timer, to.value, false, IoTimeout(f, call, fd, e));
      NewTimerFirst(w, timer, T.DoAdd(w.tm, timer, to.value, Some(timer), false, w.now).0, IoTimeout(f, call, fd, e));
      T.DeadlineSmall(w.now, to.value);
    }
  }

  /** What adding the event of a wait does. */
  lemma WaitAdds(w: World, f: FiberId, fd: nat, e: I.Event, allowed: bool)
    requires Sound(w) && (fd < |w.io.ctxs| ==> !w.io.ctxs[fd].Has(e))
    ensures var (io, r) := I.AddEvent(w.io, fd, e, None, f, 0, allowed);
            var w' := w.(io := io);
            r == I.Returned(allowed) &&
            Sound(w') && TimeoutsFirst(w') == TimeoutsFirst(w) &&
            (forall g :: InSlots(w', g) == InSlots(w, g) + if allowed && g == f then 1 else 0) &&
            (forall t :: InQueue(w', t) == InQueue(w, t))
  {
    hide I.AddEvent, I.Inv, T.Inv, InSlots, InQueue;
    I.AddEventInv(w.io, fd, e, None, f, 0, allowed);
    var io := I.AddEvent(w.io, fd, e, None, f, 0, allowed).0;
    Registers(w, io, if allowed then [Waiter(f)] else []);
  }

  lemma ParkNeeds(w: World, f: FiberId, fd: nat, e: I.Event, to: Option<nat>, call: CallId, timer: TimerId, allowed: bool)
    requires Legal(w, Park(f, fd, e, to, call, timer, allowed))
    ensures Runs(w, f) && timer !in w.kinds && (call in w.calls ==> w.calls[call] == Call(f, false))
    ensures fd < |w.io.ctxs| ==> !w.io.ctxs[fd].Has(e)
    ensures to.Some? ==> w.now + to.value < U64
  {
  }

  /** What a wait that parks changes. */
  lemma ParkedFacts(w: World, f: FiberId, fd: nat, e: I.Event, to: Option<nat>, call: CallId, timer: TimerId)
    requires Inv(w) && Legal(w, Park(f, fd, e, to, call, timer, true))
    ensures var w' := DoPark(w, f, fd, e, to, call, timer, true);
            Sound(w') && TimeoutsFirst(w') && w'.now == w.now && w'.fired == w.fired &&
            w'.kinds == (if to.Some? then w.kinds[timer := IoTimeout(f, call, fd, e)] else w.kinds) &&
            w'.fibers == w.fibers[f := Waits(fd, e, to, call, timer, w.now)] && w'.calls == w.calls[call := Call(f, false)] &&
            (forall g :: InSlots(w', g) == InSlots(w, g) + if g == f then 1 else 0) &&
            (forall t :: InQueue(w', t) == InQueue(w, t)) &&
            (forall b: TimerId :: Alive(w'.tm, b) <==> Alive(w.tm, b) || (to.Some? && b == timer)) &&
            (forall b: TimerId :: b in w.kinds ==> T.At(w'.tm.info, b) == T.At(w.tm.info, b)) &&
            (to.Some? ==> T.At(w'.tm.info, timer).next == w.now + to.value && !Alive(w.tm, timer) &&
                          InQueue(w', TimerTask(timer)) == 0)
  {
    hide Legal, Sound, TimeoutsFirst, I.AddEvent, Timed, InSlots, InQueue, Alive, T.At, I.FdCtx.Has, FiberOk, TimerOk;
    ParkNeeds(w, f, fd, e, to, call, timer, true);
    TimedSame(w, f, fd, e, to, call, timer);
    var w1 := Timed(w, f, fd, e, to, call, timer);
    WaitAdds(w1, f, fd, e, true);
    var w2 := w1.(io := I.AddEvent(w1.io, fd, e, None, f, 0, true).0);
    var w' := DoPark(w, f, fd, e, to, call, timer, true);
    StatusOnly(w2, w'.fibers, w'.calls);
  }

  lemma ParkedKeeps(w: World, f: FiberId, fd: nat, e: I.Event, to: Option<nat>, call: CallId, timer: TimerId)
    requires Inv(w) && Legal(w, Park(f, fd, e, to, call, timer, true))
    ensures Keeps(w, DoPark(w, f, fd, e, to, call, timer, true), {f})
  {
    hide Legal, Sound, TimeoutsFirst, DoPark, InSlots, InQueue, Alive, T.At, I.FdCtx.Has, FiberOk, TimerOk;
    ParkNeeds(w, f, fd, e, to, call, timer, true);
    ParkedFacts(w, f, fd, e, to, call, timer);
  }

  lemma ParkedInv(w: World, f: FiberId, fd: nat, e: I.Event, to: Option<nat>, call: CallId, timer: TimerId)
    requires Inv(w) && Legal(w, Park(f, fd, e, to, call, timer, true))
    ensures var w' := DoPark(w, f, fd, e, to, call, timer, true);
            Inv(w') && w'.fibers == w.fibers[f := Waits(fd, e, to, call, timer, w.now)] && InSlots(w', f) == 1
  {
    hide Legal, Sound, TimeoutsFirst, DoPark, InSlots, InQueue, Alive, T.At, I.FdCtx.Has, Keeps;
    ParkNeeds(w, f, fd, e, to, call, timer, true);
    ParkedFacts(w, f, fd, e, to, call, timer);
    ParkedKeeps(w, f, fd, e, to, call, timer);
    var w' := DoPark(w, f, fd, e, to, call, timer, true);
    assert FiberOk(w, f);
    forall b | b in w'.kinds && (b !in w.kinds || Belongs(w.kinds[b], {f}))
      ensures TimerOk(w', b)
    {
      if b in w.kinds {
        Quiet(w, f, b);
        Spent(w', b);
      }
    }
    SameRunner(w, w');
    InvFrom(w, w', {f});
  }

  /** What a wait that is refused changes. */
  lemma RefusedFacts(w: World, f: FiberId, fd: nat, e: I.Event, to: Option<nat>, call: CallId, timer: TimerId)
    requires Inv(w) && Legal(w, Park(f, fd, e, to, call, timer, false))
    ensures var w' := DoPark(w, f, fd, e, to, call, timer, false);
            Sound(w') && TimeoutsFirst(w') && w'.now == w.now && w'.fired == w.fired &&
            w'.kinds == (if to.Some? then w.kinds[timer := IoTimeout(f, call, fd, e)] else w.kinds) &&
            w'.fibers == w.fibers && w'.calls == w.calls - {call} &&
            (forall g :: InSlots(w', g) == InSlots(w, g)) && (forall t :: InQueue(w', t) == InQueue(w, t)) &&
            (forall b: TimerId :: Alive(w'.tm, b) <==> Alive(w.tm, b) && !(to.Some? && b == timer)) &&
            (forall b: TimerId :: b in w.kinds ==> T.At(w'.tm.info, b).next == T.At(w.tm.info, b).next) &&
            (to.Some? ==> InQueue(w', TimerTask(timer)) == 0)
  {
    hide Legal, Sound, TimeoutsFirst, I.AddEvent, Timed, T.DoCancel, InSlots, InQueue, Alive, T.At, I.FdCtx.Has, FiberOk, TimerOk;
    ParkNeeds(w, f, fd, e, to, call, timer, false);
    TimedSame(w, f, fd, e, to, call, timer);
    var w1 := Timed(w, f, fd, e, to, call, timer);
    var w2 := w1.(tm := if to.Some? then T.DoCancel(w1.tm, timer).0 else w1.tm);
    if to.Some? {
      CancelledTimer(w1, timer);
      TimersOnly(w1, w2.tm);
    }
    WaitAdds(w2, f, fd, e, false);
    var w3 := w2.(io := I.AddEvent(w2.io, fd, e, None, f, 0, false).0);
    var w' := DoPark(w, f, fd, e, to, call, timer, false);
    StatusOnly(w3, w'.fibers, w'.calls);
  }

  lemma RefusedInv(w: World, f: FiberId, fd: nat, e: I.Event, to: Option<nat>, call: CallId, timer: TimerId)
    requires Inv(w) && Legal(w, Park(f, fd, e, to, call, timer, false))
    ensures var w' := DoPark(w, f, fd, e, to, call, timer, false);
            Inv(w') && w'.fibers == w.fibers && call !in w'.calls
  {
    hide Legal, Sound, TimeoutsFirst, DoPark, InSlots, InQueue, Alive, T.At, I.FdCtx.Has;
    ParkNeeds(w, f, fd, e, to, call, timer, false);
    RefusedFacts(w, f, fd, e, to, call, timer);
    var w' := DoPark(w, f, fd, e, to, call, timer, false);
    assert FiberOk(w, f);
    forall b | b in w'.kinds && (b !in w.kinds || Belongs(w.kinds[b], {f}))
      ensures TimerOk(w', b)
    {
      if b in w.kinds {
        Quiet(w, f, b);
      }
      Spent(w', b);
    }
    SameRunner(w, w');
    InvFrom(w, w', {f});
  }

  // --------------------------------------------------------- the other calls

  lemma EndCallInv(w: World, f: FiberId, call: CallId)
    requires Inv(w) && Legal(w, EndCall(f, call))
    ensures Inv(Step(w, EndCall(f, call)))
  {
    hide Sound, TimeoutsFirst, InSlots, InQueue, Alive, T.At;
    var w' := w.(calls := w.calls - {call});
    StatusOnly(w, w'.fibers, w'.calls);
    assert FiberOk(w, f);
    forall b | b in w'.kinds && (b !in w.kinds || Belongs(w.kinds[b], {f}))
      ensures TimerOk(w', b)
    {
      Quiet(w, f, b);
      Spent(w', b);
    }
    SameRunner(w, w');
    InvFrom(w, w', {f});
  }

  lemma YieldForm(w: World, f: FiberId)
    requires Legal(w, Yield(f))
    ensures Runs(w, f)
    ensures Step(w, Yield(f)) == w.(fibers := w.fibers[f := Ready], queue := w.queue + [FiberTask(f)])
  {
  }

  lemma YieldInv(w: World, f: FiberId)
    requires Inv(w) && Legal(w, Yield(f))
    ensures Inv(Step(w, Yield(f)))
  {
    hide Sound, TimeoutsFirst, InSlots, InQueue, Alive, T.At, Step, Legal;
    YieldForm(w, f);
    var w1 := w.(queue := w.queue + [FiberTask(f)]);
    var w' := Step(w, Yield(f));
    SoundPush(w, FiberTask(f));
    FirstPush(w, FiberTask(f));
    PushedCounts(w, FiberTask(f));
    StatusOnly(w1, w'.fibers, w'.calls);
    assert FiberOk(w, f);
    forall b | b in w'.kinds && (b !in w.kinds || Belongs(w.kinds[b], {f}))
      ensures TimerOk(w', b)
    {
      Quiet(w, f, b);
      Spent(w', b);
    }
    SameRunner(w, w');
    InvFrom(w, w', {f});
  }

  lemma FinishInv(w: World, f: FiberId)
    requires Inv(w) && Legal(w, Finish(f))
    ensures Inv(Step(w, Finish(f)))
  {
    hide Sound, TimeoutsFirst, InSlots, InQueue, Alive, T.At;
    var w' := Step(w, Finish(f));
    StatusOnly(w, w'.fibers, w'.calls);
    assert FiberOk(w, f);
    forall b | b in w'.kinds && (b !in w.kinds || Belongs(w.kinds[b], {f}))
      ensures TimerOk(w', b)
    {
      Quiet(w, f, b);
      Spent(w', b);
    }
    SameRunner(w, w');
    InvFrom(w, w', {f});
  }

  lemma ScheduleInv(w: World, cb: nat)
    requires Inv(w)
    ensures Inv(w.(queue := w.queue + [UserTask(cb)]))
  {
    hide Sound, TimeoutsFirst, InSlots, InQueue, Alive, T.At;
    var w' := w.(queue := w.queue + [UserTask(cb)]);
    SoundPush(w, UserTask(cb));
    FirstPush(w, UserTask(cb));
    PushedCounts(w, UserTask(cb));
    SameRunner(w, w');
    InvFrom(w, w', {});
  }

  lemma ChangeUserTimerInv(w: World, op: T.Op)
    requires Inv(w) && Legal(w, ChangeUserTimer(op))
    ensures Inv(Step(w, ChangeUserTimer(op)))
  {
    hide Sound, TimeoutsFirst, InSlots, InQueue, T.Step;
    var tm := T.Step(w.tm, op, w.now).0;
    var w' := w.(tm := tm);
    ChangedSound(w, op);
    TimersOnly(w, tm);
    SameRunner(w, w');
    InvFrom(w, w', {});
  }

  lemma ChangedSound(w: World, op: T.Op)
    requires Sound(w) && (op.Cancel? || op.Refresh? || op.Reset?) && op.a in w.kinds && w.kinds[op.a] == UserTimer
    ensures var w' := w.(tm := T.Step(w.tm, op, w.now).0);
            Sound(w') && (forall b: TimerId :: b != op.a ==> T.At(w'.tm.info, b) == T.At(w.tm.info, b))
  {
    hide T.Step, T.Inv, I.Inv;
    TmChange(w.tm, op, w.now);
  }

  lemma TickInv(w: World, now: nat)
    requires Inv(w)
    ensures Inv(w.(now := now))
  {
    hide T.Inv, I.Inv, I.Registered, Alive, T.At;
    var w' := w.(now := now);
    SameRunner(w, w');
    InvFrom(w, w', {});
  }

  lemma CancelInv(w: World, fd: nat, e: I.Event, allowed: bool)
    requires Inv(w)
    ensures Inv(WithIo(w, I.CancelEvent(w.io, fd, e, allowed).0))
    ensures Inv(WithIo(w, I.CancelAll(w.io, fd, allowed).0))
  {
    hide Inv, I.Inv, WithIo, I.CancelEvent, I.CancelAll;
    IoPart(w);
    I.CancelEventInv(w.io, fd, e, allowed);
    I.CancelAllInv(w.io, fd, allowed);
    IoStep(w, I.CancelEvent(w.io, fd, e, allowed).0);
    IoStep(w, I.CancelAll(w.io, fd, allowed).0);
  }

  // ------------------------------------------------------------------- idling

  function Fired(w: World, probe: nat): (T.State, T.Out) {
    T.DoListExpiredCb(T.DoGetNextTimer(w.tm, w.now).0, w.now, probe)
  }

  /** The due timers have gone off and their callbacks are queued. */
  function AfterTimers(w: World, probe: nat): World {
    w.(tm := Fired(w, probe).0, queue := w.queue + TimerTasks(Fired(w, probe).1.fired),
       fired := Noted(w, Fired(w, probe).1.fired))
  }

  lemma FiredQueue(w: World, probe: nat)
    requires Sound(w) && OnlyUsers(w.queue)
    ensures var (w', fired) := (AfterTimers(w, probe), Fired(w, probe).1.fired);
            (forall f :: InSlots(w', f) == InSlots(w, f) && InQueue(w', FiberTask(f)) == InQueue(w, FiberTask(f))) &&
            (forall a: TimerId :: InQueue(w, TimerTask(a)) == 0) &&
            (forall a: TimerId :: InQueue(w', TimerTask(a)) == if a in fired then 1 else 0) &&
            (forall t :: t in w'.queue ==> t.UserTask? || (t.TimerTask? && t.a in fired))
  {
    hide T.Inv, I.Inv, Fired, I.Registered, T.Distinct, T.At;
    FiredDistinct(w, probe);
    var fired := Fired(w, probe).1.fired;
    TimerTaskCounts(fired);
    assert multiset(w.queue + TimerTasks(fired)) == multiset(w.queue) + multiset(TimerTasks(fired));
    forall f: FiberId
      ensures FiberTask(f) !in TimerTasks(fired)
    {
    }
    forall a: TimerId
      ensures TimerTask(a) !in w.queue
    {
    }
  }

  lemma FiredDistinct(w: World, probe: nat)
    requires Sound(w)
    ensures T.Distinct(Fired(w, probe).1.fired)
  {
    hide T.Inv, I.Inv, T.DoListExpiredCb, T.DoGetNextTimer, T.Distinct, T.At;
    TmExpire(w.tm, w.now, probe);
  }

  lemma FiredNoted(w: World, probe: nat)
    requires Sound(w) && OnlyUsers(w.queue)
    ensures var w' := AfterTimers(w, probe);
            w'.tm.info.Keys == w.tm.info.Keys && (forall a :: a in w'.fired ==> a in w.kinds) &&
            (forall a :: a in w'.fired && w.kinds[a] != UserTimer ==> InTime(w'.fired[a], w'.tm.info[a].next))
  {
    hide T.Inv, I.Inv, T.DoListExpiredCb, T.DoGetNextTimer, T.Distinct, T.At, T.Rollover, Alive, TimerTasks;
    TmExpire(w.tm, w.now, probe);
  }

  lemma FiredSound(w: World, probe: nat)
    requires Sound(w) && OnlyUsers(w.queue)
    ensures Sound(AfterTimers(w, probe))
  {
    hide T.Inv, I.Inv, T.DoListExpiredCb, T.DoGetNextTimer, T.Distinct, T.At, Alive, InSlots, InQueue, T.Rollover, Noted,
      InTime;
    TmExpire(w.tm, w.now, probe);
    FiredQueue(w, probe);
    FiredNoted(w, probe);
    hide TimerTasks;
  }

  lemma FiredFirst(w: World, probe: nat)
    requires Sound(w) && OnlyUsers(w.queue)
    ensures TimeoutsFirst(AfterTimers(w, probe))
  {
    hide Sound, Fired, InSlots, InQueue;
    FiredQueue(w, probe);
    hide TimerTasks;
    var w' := AfterTimers(w, probe);
    forall i | 0 <= i < |w'.queue|
      ensures !w'.queue[i].FiberTask?
    {
      assert w'.queue[i] in w'.queue;
    }
  }

  lemma FiredFlight(w: World, probe: nat, a: TimerId)
    requires Sound(w) && OnlyUsers(w.queue) && a in w.kinds && w.kinds[a] != UserTimer
    ensures var w' := AfterTimers(w, probe);
            Flight(w', a) == Flight(w, a) && T.At(w'.tm.info, a).next == T.At(w.tm.info, a).next &&
            (InQueue(w', TimerTask(a)) > 0 ==> a in w'.fired)
  {
    hide T.Inv, I.Inv, T.DoListExpiredCb, T.DoGetNextTimer, T.Distinct, InSlots, InQueue;
    TmExpire(w.tm, w.now, probe);
    FiredQueue(w, probe);
  }

  lemma TimersFireInv(w: World, probe: nat)
    requires Inv(w) && OnlyUsers(w.queue)
    ensures Inv(AfterTimers(w, probe))
  {
    hide Sound, TimeoutsFirst, InSlots, InQueue, Flight, Fired, T.At;
    FiredSound(w, probe);
    FiredFirst(w, probe);
    FiredQueue(w, probe);
    var w' := AfterTimers(w, probe);
    forall a | a in w.kinds && w.kinds[a] != UserTimer
      ensures Flight(w', a) == Flight(w, a) && T.At(w'.tm.info, a).next == T.At(w.tm.info, a).next
      ensures InQueue(w', TimerTask(a)) > 0 ==> a in w'.fired
    {
      FiredFlight(w, probe, a);
    }
    SameRunner(w, w');
    assert FibersKept(w, w', {});
    assert TimersKept(w, w', {});
    assert CallsKept(w, w', {});
    InvFrom(w, w', {});
  }

  lemma IdleInv(w: World, probe: nat, batch: seq<I.Report>)
    requires Inv(w) && OnlyUsers(w.queue) && I.Faithful(w.io, batch)
    ensures DoIdle(w, probe, batch) == WithIo(AfterTimers(w, probe), I.DeliverAll(w.io, batch).0)
    ensures Inv(DoIdle(w, probe, batch))
  {
    hide Inv, I.Inv, I.DeliverAll, I.Faithful, WithIo, T.DoListExpiredCb, T.DoGetNextTimer;
    TimersFireInv(w, probe);
    IoPart(w);
    I.FaithfulBatch(w.io, batch);
    IoStep(AfterTimers(w, probe), I.DeliverAll(w.io, batch).0);
  }

  // -------------------------------------------------------------------- runs

  lemma StartInv(now: nat)
    ensures Inv(Start(now))
  {
    I.InitialInv();
    NoWaiters();
    var w := Start(now);
    hide I.Initial, I.Inv;
    InitialFields();
    assert Sound(w);
    forall f: FiberId
      ensures FiberOk(w, f)
    {
    }
  }

  lemma NoWaiters()
    ensures I.Registered(I.Initial().ctxs) == multiset{}
  {
    I.InitialInv();
    hide I.Registered, I.Initial, I.BitsSet;
    I.RegisteredSize(I.Initial().ctxs);
    InitialFields();
  }

  lemma InitialFields()
    ensures var s := I.Initial(); s.pending == 0 && s.added == [] && s.handed == [] && s.deleted == []
  {
  }

  lemma StepInv(w: World, a: Action)
    requires Inv(w) && Legal(w, a)
    ensures Inv(Step(w, a))
  {
    hide Inv, DoPark, DoTimeout, DoResume, DoIdle, WithIo, I.Faithful, T.DoAdd, I.AddEvent, T.Step;
    match a
    case StartCallback(f) => StartCallbackInv(w, f);
    case RunTimeout(allowed) => RunTimeoutInv(w, allowed);
    case RunWake => RunWakeInv(w);
    case Resume => ResumeInv(w);
    case Park(f, fd, e, to, call, timer, allowed) =>
      if allowed {
        ParkedInv(w, f, fd, e, to, call, timer);
      } else {
        RefusedInv(w, f, fd, e, to, call, timer);
      }
    case EndCall(f, call) => EndCallInv(w, f, call);
    case Sleep(f, ms, timer) => SleepInv(w, f, ms, timer);
    case Yield(f) => YieldInv(w, f);
    case Finish(f) => FinishInv(w, f);
    case CancelEvent(fd, e, allowed) => CancelInv(w, fd, e, allowed);
    case CancelAll(fd, allowed) => CancelInv(w, fd, I.READ, allowed);
    case AddCallbackEvent(fd, e, cb, allowed) => AddCallbackEventInv(w, fd, e, cb, allowed);
    case Schedule(cb) => ScheduleInv(w, cb);
    case AddUserTimer(t, ms, recurring) => AddUserTimerInv(w, t, ms, recurring);
    case ChangeUserTimer(op) => ChangeUserTimerInv(w, op);
    case Idle(probe, batch) => IdleInv(w, probe, batch);
    case Tick(now) => TickInv(w, now);
  }
}
