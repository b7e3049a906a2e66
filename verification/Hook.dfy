// The park and wake protocol of the I/O hook on one worker: a fiber parks behind
// an event and a timer, and exactly one of readiness, timeout and cancellation
// puts it back in the queue.  One step is what happens between two yields, or one
// call made by the running fiber.

module HookProtocol {
  import opened Common
  import T = TimerSpec
  import I = IoSpec

  type FiberId = nat
  type TimerId = nat
  type CallId = nat

  /** An entry of the task queue. */
  datatype Task = FiberTask(f: FiberId) | TimerTask(a: TimerId) | UserTask(cb: nat)

  /** What the callback of a timer does. */
  datatype Kind =
    | IoTimeout(f: FiberId, call: CallId, fd: nat, e: I.Event)
    | Wake(f: FiberId)
    | UserTimer

  /** A fiber that exists and has not finished. */
  datatype Status =
    | Running
    | Ready
    | Parked(fd: nat, e: I.Event, timer: Option<TimerId>, call: CallId, to: nat, since: nat)
    | Sleeping(behind: TimerId, until: nat)

  /** A do_io call in progress: the shared timer_info. */
  datatype Call = Call(owner: FiberId, cancelled: bool)

  /** When a timer last went off: the time read then, and whether the clock seemed
      to have gone back. */
  datatype Firing = Firing(at: nat, rolled: bool)

  datatype World = World(
    tm: T.State, io: I.State, queue: seq<Task>, kinds: map<TimerId, Kind>,
    fibers: map<FiberId, Status>, calls: map<CallId, Call>, fired: map<TimerId, Firing>, now: nat)

  // ------------------------------------------------------------ observations

  function Waiter(f: FiberId): I.Hand {
    I.Hand(0, I.FiberWaiter(f))
  }

  /** How often `f` stands in a waiter slot, and in the queue. */
  function InSlots(w: World, f: FiberId): nat {
    I.Registered(w.io.ctxs)[Waiter(f)]
  }

  function InQueue(w: World, t: Task): nat {
    multiset(w.queue)[t]
  }

  function Tokens(w: World, f: FiberId): nat {
    InSlots(w, f) + InQueue(w, FiberTask(f))
  }

  predicate Alive(tm: T.State, a: TimerId) {
    T.At(tm.info, a).cb.Some?
  }

  /** How often the callback of a timer can still run: the timer is set, or the
      callback is queued. */
  function Flight(w: World, a: TimerId): nat {
    (if Alive(w.tm, a) then 1 else 0) + InQueue(w, TimerTask(a))
  }

  // ------------------------------------------------------------------- steps

  function TaskOf(h: I.Hand): Task {
    match h.waiter
    case FiberWaiter(f) => FiberTask(f)
    case CallbackWaiter(cb) => UserTask(cb)
  }

  function TasksOf(hs: seq<I.Hand>): seq<Task> {
    if hs == [] then [] else TasksOf(hs[..|hs| - 1]) + [TaskOf(hs[|hs| - 1])]
  }

  function NewHands(before: I.State, after: I.State): seq<I.Hand> {
    if |before.handed| <= |after.handed| then after.handed[|before.handed|..] else []
  }

  /** After an event call: the waiters it handed over are in the queue. */
  function WithIo(w: World, io: I.State): World {
    w.(io := io, queue := w.queue + TasksOf(NewHands(w.io, io)))
  }

  function TimerTasks(fired: seq<TimerId>): seq<Task> {
    if fired == [] then [] else TimerTasks(fired[..|fired| - 1]) + [TimerTask(fired[|fired| - 1])]
  }

  datatype Action =
    // the scheduler takes the head of the queue
    | StartCallback(f: FiberId)
    | RunTimeout(allowed: bool)
    | RunWake
    | Resume
    // the running fiber calls
    | Park(f: FiberId, fd: nat, e: I.Event, to: Option<nat>, call: CallId, timer: TimerId, allowed: bool)
    | EndCall(f: FiberId, call: CallId)
    | Sleep(f: FiberId, ms: nat, timer: TimerId)
    | Yield(f: FiberId)
    | Finish(f: FiberId)
    | CancelEvent(fd: nat, e: I.Event, allowed: bool)
    | CancelAll(fd: nat, allowed: bool)
    | AddCallbackEvent(fd: nat, e: I.Event, cb: nat, allowed: bool)
    | Schedule(cb: nat)
    | AddUserTimer(a: TimerId, ms: nat, recurring: bool)
    | ChangeUserTimer(op: T.Op)
    // the idle fiber, and time
    | Idle(probe: nat, batch: seq<I.Report>)
    | Tick(now: nat)

  predicate NobodyRuns(w: World) {
    forall f :: f in w.fibers ==> w.fibers[f] != Running
  }

  predicate Runs(w: World, f: FiberId) {
    f in w.fibers && w.fibers[f] == Running
  }

  /** Someone runs whose code makes the call. */
  predicate SomeoneRuns(w: World) {
    !NobodyRuns(w)
  }

  predicate OnlyUsers(q: seq<Task>) {
    forall t :: t in q ==> t.UserTask?
  }

  predicate IsKind(w: World, t: Task, k: Kind) {
    t.TimerTask? && t.a in w.kinds && w.kinds[t.a] == k
  }

  /** The task at the head of the queue is of the kind the action runs. */
  predicate Fits(w: World, a: Action) {
    match a
    case StartCallback(_) => w.queue != [] && (w.queue[0].UserTask? || IsKind(w, w.queue[0], UserTimer))
    case RunTimeout(_) =>
      w.queue != [] && w.queue[0].TimerTask? && w.queue[0].a in w.kinds && w.kinds[w.queue[0].a].IoTimeout?
    case RunWake => w.queue != [] && w.queue[0].TimerTask? && w.queue[0].a in w.kinds && w.kinds[w.queue[0].a].Wake?
    case Resume => w.queue != [] && w.queue[0].FiberTask?
    case _ => true
  }

  /** What a step needs: the worker is free to take a task or to go idle, or the
      named fiber is running; new timers, fibers and calls are new; no event is
      registered twice; the deadline of a wait does not wrap; the kernel reports
      faithfully.  Any thread may schedule callbacks and change timers of its own,
      so an idle stretch may begin with callbacks queued since the worker looked. */
  ghost predicate Legal(w: World, a: Action) {
    Fits(w, a) &&
    match a
    case StartCallback(f) => NobodyRuns(w) && f !in w.fibers
    case RunTimeout(_) => NobodyRuns(w)
    case RunWake => NobodyRuns(w)
    case Resume => NobodyRuns(w)
    case Park(f, fd, e, to, call, timer, _) =>
      Runs(w, f) && timer !in w.kinds &&
      (call in w.calls ==> w.calls[call] == Call(f, false)) &&
      (fd < |w.io.ctxs| ==> !w.io.ctxs[fd].Has(e)) &&
      (to.Some? ==> w.now + to.value < U64)
    case EndCall(f, call) => Runs(w, f) && call in w.calls && w.calls[call].owner == f
    case Sleep(f, ms, timer) => Runs(w, f) && timer !in w.kinds
    case Yield(f) => Runs(w, f)
    case Finish(f) => Runs(w, f)
    case CancelEvent(_, _, _) => SomeoneRuns(w)
    case CancelAll(_, _) => SomeoneRuns(w)
    case AddCallbackEvent(fd, e, _, _) => SomeoneRuns(w) && (fd < |w.io.ctxs| ==> !w.io.ctxs[fd].Has(e))
    case Schedule(_) => true
    case AddUserTimer(t, _, _) => t !in w.kinds
    case ChangeUserTimer(op) =>
      (op.Cancel? || op.Refresh? || op.Reset?) && op.a in w.kinds && w.kinds[op.a] == UserTimer
    case Idle(_, batch) => NobodyRuns(w) && OnlyUsers(w.queue) && I.Faithful(w.io, batch)
    case Tick(_) => true
  }

  /** The timer of a wait, if it has a timeout. */
  function Timed(w: World, f: FiberId, fd: nat, e: I.Event, to: Option<nat>, call: CallId, timer: TimerId): World {
    if to.None? then w
    else
      w.(tm := T.DoAdd(w.tm, timer, to.value, Some(timer), false, w.now).0,
         kinds := w.kinds[timer := IoTimeout(f, call, fd, e)])
  }

  function Waits(fd: nat, e: I.Event, to: Option<nat>, call: CallId, timer: TimerId, now: nat): Status {
    Parked(fd, e, if to.Some? then Some(timer) else None, call, if to.Some? then to.value else 0, now)
  }

  /** The wait of do_io: a timer behind the call, then the event.  When the event
      cannot be added the timer is cancelled and the call ends. */
  function DoPark(w: World, f: FiberId, fd: nat, e: I.Event, to: Option<nat>, call: CallId, timer: TimerId, allowed: bool): World {
    var w1 := Timed(w, f, fd, e, to, call, timer);
    var (io, r) := I.AddEvent(w1.io, fd, e, None, f, 0, allowed);
    if r == I.Returned(true) then
      w1.(io := io, calls := w1.calls[call := Call(f, false)],
          fibers := w1.fibers[f := Waits(fd, e, to, call, timer, w.now)])
    else
      w1.(io := io, calls := w1.calls - {call},
          tm := if to.Some? then T.DoCancel(w1.tm, timer).0 else w1.tm)
  }

  /** The timeout callback: nothing when the call is over or was timed out before;
      otherwise mark it and cancel the event. */
  function DoTimeout(w: World, a: TimerId, allowed: bool): World
    requires a in w.kinds && w.kinds[a].IoTimeout?
  {
    var k := w.kinds[a];
    if k.call !in w.calls || w.calls[k.call].cancelled then w
    else
      var w1 := w.(calls := w.calls[k.call := w.calls[k.call].(cancelled := true)]);
      WithIo(w1, I.CancelEvent(w1.io, k.fd, k.e, allowed).0)
  }

  /** What the resumed fiber does first. */
  function DoResume(w: World, f: FiberId): World {
    if f !in w.fibers then w
    else
      var s := w.fibers[f];
      var w1 := w.(fibers := w.fibers[f := Running]);
      if !s.Parked? then w1
      else
        var w2 := if s.timer.Some? then w1.(tm := T.DoCancel(w1.tm, s.timer.value).0) else w1;
        if s.call in w2.calls && w2.calls[s.call].cancelled then w2.(calls := w2.calls - {s.call}) else w2
  }

  /** The timers that went off, with the time. */
  function Noted(w: World, fired: seq<TimerId>): map<TimerId, Firing> {
    w.fired + map a | a in fired :: Firing(w.now, T.Rollover(w.tm.previous, w.now))
  }

  /** The body of idle between two looks at the queue. */
  function DoIdle(w: World, probe: nat, batch: seq<I.Report>): World {
    var (tm, out) := T.DoListExpiredCb(T.DoGetNextTimer(w.tm, w.now).0, w.now, probe);
    WithIo(w.(tm := tm, queue := w.queue + TimerTasks(out.fired), fired := Noted(w, out.fired)), I.DeliverAll(w.io, batch).0)
  }

  function Rest(w: World): World
    requires w.queue != []
  {
    w.(queue := w.queue[1..])
  }

  function Step(w: World, a: Action): World
    requires Fits(w, a)
  {
    match a
    case StartCallback(f) => Rest(w).(fibers := w.fibers[f := Running])
    case RunTimeout(allowed) => DoTimeout(Rest(w), w.queue[0].a, allowed)
    case RunWake => Rest(w).(queue := w.queue[1..] + [FiberTask(w.kinds[w.queue[0].a].f)])
    case Resume => DoResume(Rest(w), w.queue[0].f)
    case Park(f, fd, e, to, call, timer, allowed) => DoPark(w, f, fd, e, to, call, timer, allowed)
    case EndCall(f, call) => w.(calls := w.calls - {call})
    case Sleep(f, ms, timer) =>
      w.(tm := T.DoAdd(w.tm, timer, ms, Some(timer), false, w.now).0,
         kinds := w.kinds[timer := Wake(f)], fibers := w.fibers[f := Sleeping(timer, T.Deadline(w.now, ms))])
    case Yield(f) => w.(fibers := w.fibers[f := Ready], queue := w.queue + [FiberTask(f)])
    case Finish(f) => w.(fibers := w.fibers - {f})
    case CancelEvent(fd, e, allowed) => WithIo(w, I.CancelEvent(w.io, fd, e, allowed).0)
    case CancelAll(fd, allowed) => WithIo(w, I.CancelAll(w.io, fd, allowed).0)
    case AddCallbackEvent(fd, e, cb, allowed) => w.(io := I.AddEvent(w.io, fd, e, Some(cb), 0, 0, allowed).0)
    case Schedule(cb) => w.(queue := w.queue + [UserTask(cb)])
    case AddUserTimer(t, ms, recurring) =>
      w.(tm := T.DoAdd(w.tm, t, ms, Some(t), recurring, w.now).0, kinds := w.kinds[t := UserTimer])
    case ChangeUserTimer(op) => w.(tm := T.Step(w.tm, op, w.now).0)
    case Idle(probe, batch) => DoIdle(w, probe, batch)
    case Tick(now) => w.(now := now)
  }

  // ------------------------------------------------------- how long to sleep

  const WORD: nat := 0x1_0000_0000

  /** `seconds * 1000` in 32 bits. */
  function SleepMillis(seconds: nat): nat {
    (seconds * 1000) % WORD
  }

  function UsleepMillis(usec: nat): nat {
    usec / 1000
  }

  /** The milliseconds of a timespec pass through a 32-bit int, and a negative one
      is then taken as unsigned 64-bit. */
  function NanosleepMillis(seconds: nat, nanos: nat): nat {
    var word := (seconds * 1000 + nanos / 1_000_000) % WORD;
    if word < WORD / 2 then word else U64 - (WORD - word)
  }

  /** A sleep of whole seconds is for the low 32 bits of its milliseconds, and ends no
      earlier than it should exactly when they fit. */
  lemma SleepExact(now: nat, seconds: nat)
    requires now + WORD < U64
    ensures T.Deadline(now, SleepMillis(seconds)) == now + (seconds * 1000) % 0x1_0000_0000
    ensures T.Deadline(now, SleepMillis(seconds)) >= now + seconds * 1000 <==> seconds * 1000 < WORD
  {
    ModBelow(seconds * 1000);
    T.DeadlineSmall(now, SleepMillis(seconds));
  }

  /** A sleep of 2147484 seconds, alone on a new manager: the poller's wait has no
      end. */
  lemma SleepWithoutEnd(now: nat)
    requires 0 < now && now + 2147484000 < U64
    ensures var tm := T.DoAdd(T.State(map[], [], false, now, {}), 0, SleepMillis(2147484), Some(0), false, now).0;
            tm.order == [0] && T.PollWait(T.DoGetNextTimer(tm, now).1.timeout) < 0
  {
    hide T.DoAdd, T.DoGetNextTimer, T.PollWait;
    T.WaitsForever(now, 2147484000);
  }

  lemma ModBelow(x: nat)
    ensures x % WORD < WORD && x % WORD <= x && (x % WORD == x <==> x < WORD)
    ensures T.Int32(x) == if x % WORD < WORD / 2 then x % WORD else x % WORD - WORD
  {
  }

  /** A sleep of microseconds is rounded down to the millisecond. */
  lemma UsleepExact(now: nat, usec: nat)
    requires now + usec < U64
    ensures var deadline := T.Deadline(now, UsleepMillis(usec));
            deadline * 1000 <= now * 1000 + usec < (deadline + 1) * 1000
    ensures T.Deadline(now, UsleepMillis(usec)) * 1000 >= now * 1000 + usec <==> usec % 1000 == 0
  {
    T.DeadlineSmall(now, UsleepMillis(usec));
  }

  /** A nanosleep is for the low 32 bits of its milliseconds as a signed number.  It
      ends no earlier than it should exactly when it is a whole number of
      milliseconds that fits an int; from 2^31 on it can end at once. */
  lemma NanosleepExact(now: nat, seconds: nat, nanos: nat)
    requires WORD / 2 <= now && now + WORD < U64
    ensures T.Deadline(now, NanosleepMillis(seconds, nanos)) == now + T.Int32(seconds * 1000 + nanos / 1_000_000)
    ensures T.Deadline(now, NanosleepMillis(seconds, nanos)) * 1_000_000 >= now * 1_000_000 + seconds * 1_000_000_000 + nanos <==>
              seconds * 1000 + nanos / 1_000_000 < WORD / 2 && nanos % 1_000_000 == 0
  {
    hide NanosleepMillis, T.Deadline;
    var millis := seconds * 1000 + nanos / 1_000_000;
    assert seconds * 1_000_000_000 + nanos == millis * 1_000_000 + nanos % 1_000_000;
    NanosleepDeadline(now, seconds, nanos);
  }

  lemma NanosleepDeadline(now: nat, seconds: nat, nanos: nat)
    requires WORD / 2 <= now && now + WORD < U64
    ensures var millis := seconds * 1000 + nanos / 1_000_000;
            var deadline := T.Deadline(now, NanosleepMillis(seconds, nanos));
            deadline == now + T.Int32(millis) &&
            if millis < WORD / 2 then deadline == now + millis else deadline < now + millis
  {
    var millis := seconds * 1000 + nanos / 1_000_000;
    ModBelow(millis);
    var word := millis % WORD;
    if word < WORD / 2 {
      T.DeadlineSmall(now, word);
    } else {
      BeforeNow(now, WORD - word);
    }
  }

  /** A period of 2^64 - back is a step back. */
  lemma BeforeNow(now: nat, back: nat)
    requires 0 < back <= now < U64
    ensures T.Deadline(now, U64 - back) == now - back
  {
  }

  // --------------------------------------------------------------- invariant

  /** The timers and the events keep their own invariants; every waiter goes to
      this scheduler; every timer has a kind and carries its own callback, and
      the protocol's timers are one-shot. */
  ghost predicate Sound(w: World) {
    && T.Inv(w.tm) && I.Inv(w.io)
    && w.kinds.Keys == w.tm.info.Keys
    && (forall a :: a in w.tm.info ==> a in w.tm.armed)
    && (forall h :: h in w.io.added ==> h.scheduler == 0)
    && (forall a :: a in w.tm.info && w.tm.info[a].cb.Some? ==> w.tm.info[a].cb == Some(a))
    && (forall a :: a in w.kinds && w.kinds[a] != UserTimer ==> !w.tm.info[a].recurring)
    && (forall a :: TimerTask(a) in w.queue ==> a in w.kinds)
    && (forall a :: a in w.fired ==> a in w.kinds)
    && (forall a :: a in w.fired && w.kinds[a] != UserTimer ==> InTime(w.fired[a], w.tm.info[a].next))
  }

  /** The deadline had passed on the clock, or the clock seemed to have gone back. */
  predicate InTime(g: Firing, deadline: nat) {
    g.rolled || g.at >= deadline
  }

  /** A fiber that is not suspended stands nowhere; a suspended one stands in one
      place, a sleeping one behind its timer until it is due. */
  ghost predicate FiberOk(w: World, f: FiberId) {
    if f !in w.fibers || w.fibers[f] == Running then Tokens(w, f) == 0
    else if w.fibers[f].Sleeping? then
      w.fibers[f].behind in w.kinds && w.kinds[w.fibers[f].behind] == Wake(f) &&
      Tokens(w, f) + Flight(w, w.fibers[f].behind) == 1 && InSlots(w, f) == 0 &&
      T.At(w.tm.info, w.fibers[f].behind).next == w.fibers[f].until &&
      (Alive(w.tm, w.fibers[f].behind) || w.fibers[f].behind in w.fired)
    else if w.fibers[f].Parked? then Tokens(w, f) == 1 && ParkOk(w, f)
    else InSlots(w, f) == 0 && Tokens(w, f) == 1
  }

  /** A parked fiber owns its call; its timer, if any, is set for the end of its
      wait, and a timeout is noted as a firing. */
  ghost predicate ParkOk(w: World, f: FiberId)
    requires f in w.fibers && w.fibers[f].Parked?
  {
    var p := w.fibers[f];
    && p.call in w.calls && w.calls[p.call].owner == f
    && (p.timer.None? ==> !w.calls[p.call].cancelled)
    && (p.timer.Some? ==>
          && p.timer.value in w.kinds && w.kinds[p.timer.value] == IoTimeout(f, p.call, p.fd, p.e)
          && T.At(w.tm.info, p.timer.value).next == p.since + p.to
          && (w.calls[p.call].cancelled || InQueue(w, TimerTask(p.timer.value)) > 0 ==> p.timer.value in w.fired))
  }

  /** The fiber waits behind this timer and has not been timed out. */
  predicate Armed(w: World, a: TimerId)
    requires a in w.kinds && w.kinds[a].IoTimeout?
  {
    var k := w.kinds[a];
    k.f in w.fibers && w.fibers[k.f].Parked? && w.fibers[k.f].timer == Some(a) &&
    w.fibers[k.f].call in w.calls && !w.calls[w.fibers[k.f].call].cancelled
  }

  /** The callback of a wait's timer can run once while the wait is armed, and
      never otherwise; a sleep's callback belongs to a fiber asleep behind it. */
  ghost predicate TimerOk(w: World, a: TimerId)
    requires a in w.kinds
  {
    match w.kinds[a]
    case IoTimeout(f, call, fd, e) => Flight(w, a) == if Armed(w, a) then 1 else 0
    case Wake(f) => Flight(w, a) > 0 ==> f in w.fibers && w.fibers[f].Sleeping? && w.fibers[f].behind == a
    case UserTimer => true
  }

  predicate IsTimeout(w: World, t: Task) {
    t.TimerTask? && t.a in w.kinds && w.kinds[t.a].IoTimeout?
  }

  /** No fiber is queued ahead of a timeout callback. */
  ghost predicate TimeoutsFirst(w: World) {
    forall i, j :: 0 <= i < j < |w.queue| && IsTimeout(w, w.queue[j]) ==> !w.queue[i].FiberTask?
  }

  ghost predicate OneRuns(w: World) {
    forall f, g :: Runs(w, f) && Runs(w, g) ==> f == g
  }

  ghost predicate Inv(w: World) {
    && Sound(w)
    && (forall f: FiberId :: FiberOk(w, f))
    && (forall a :: a in w.kinds ==> TimerOk(w, a))
    && TimeoutsFirst(w)
    && OneRuns(w)
  }

  function Start(now: nat): World {
    World(T.State(map[], [], false, now, {}), I.Initial(), [], map[], map[], map[], map[], now)
  }

  // ------------------------------------------------------------ timer effects

  lemma TmAdd(tm: T.State, a: TimerId, ms: nat, recurring: bool, now: nat)
    requires T.Inv(tm) && a !in tm.info
    ensures var s := T.DoAdd(tm, a, ms, Some(a), recurring, now).0;
            T.Inv(s) && s.previous == tm.previous && s.armed == tm.armed + {a} &&
            s.info == tm.info[a := T.Rec(recurring, ms, T.Deadline(now, ms), Some(a))]
  {
    hide T.Inv, T.Deadline, T.Insert;
    T.AddInv(tm, a, ms, Some(a), recurring, now);
  }

  lemma TmCancel(tm: T.State, a: TimerId)
    requires T.Inv(tm) && a in tm.info
    ensures var (s, out) := T.DoCancel(tm, a);
            T.Inv(s) && s.previous == tm.previous && s.armed == tm.armed &&
            (out.ok <==> Alive(tm, a)) && s.info == tm.info[a := tm.info[a].(cb := None)]
  {
    hide T.Inv, T.Find, T.EraseAt;
    T.CancelInv(tm, a);
    if tm.info[a].cb.None? {
      assert tm.info[a := tm.info[a].(cb := None)] == tm.info;
    }
  }

  lemma TmChange(tm: T.State, op: T.Op, now: nat)
    requires T.Inv(tm) && (op.Cancel? || op.Refresh? || op.Reset?) && op.a in tm.info
    ensures var s := T.Step(tm, op, now).0;
            T.Inv(s) && s.previous == tm.previous && s.armed == tm.armed && s.info.Keys == tm.info.Keys &&
            (forall b :: b in tm.info && b != op.a ==> s.info[b] == tm.info[b]) &&
            s.info[op.a].recurring == tm.info[op.a].recurring &&
            (s.info[op.a].cb == tm.info[op.a].cb || s.info[op.a].cb == None)
  {
    hide T.Inv, T.Find, T.EraseAt, T.Insert, T.Deadline;
    T.StepInv(tm, op, now);
  }

  /** A batch at `now` on a clock that did not go back: the due timers leave, each
      once, and the one-shot ones are spent. */
  lemma TmExpire(tm: T.State, now: nat, probe: nat)
    requires T.Inv(tm)
    requires forall a :: a in tm.info ==> a in tm.armed
    ensures var (s, out) := T.DoListExpiredCb(T.DoGetNextTimer(tm, now).0, now, probe);
            T.Inv(s) && s.armed == tm.armed && s.info.Keys == tm.info.Keys &&
            T.Distinct(out.fired) &&
            (forall a :: a in out.fired ==>
               a in tm.info && Alive(tm, a) && (T.Rollover(tm.previous, now) || tm.info[a].next <= now)) &&
            (forall a :: a in tm.info && a !in out.fired ==> s.info[a] == tm.info[a]) &&
            (forall a :: a in out.fired && a in tm.info ==>
               s.info[a].recurring == tm.info[a].recurring &&
               s.info[a].cb == (if tm.info[a].recurring then tm.info[a].cb else None) &&
               (!tm.info[a].recurring ==> s.info[a].next == tm.info[a].next))
  {
    hide T.DoListExpiredCb, T.Deadline, T.Rollover;
    var tm1 := T.DoGetNextTimer(tm, now).0;
    T.FlagInv(tm, false);
    assert tm1 == tm.(tickled := false);
    T.ListExpired(tm1, now, probe);
    SortedDistinct(T.DoListExpiredCb(tm1, now, probe).1.fired, tm.info);
    hide T.Sorted;
  }

  lemma SortedDistinct(xs: seq<nat>, info: map<nat, T.Rec>)
    requires T.Sorted(xs, info)
    ensures T.Distinct(xs)
  {
    forall i, j | 0 <= i < j < |xs|
      ensures xs[i] != xs[j]
    {
      assert T.Less(T.KeyOf(info, xs[i]), T.KeyOf(info, xs[j]));
    }
  }

  // ------------------------------------------------------------ queue effects

  lemma QueueRest(q: seq<Task>)
    requires q != []
    ensures multiset(q) == multiset{q[0]} + multiset(q[1..])
  {
    assert q == [q[0]] + q[1..];
  }

  lemma {:induction false} TaskCounts(hs: seq<I.Hand>, f: FiberId)
    requires forall h :: h in hs ==> h.scheduler == 0
    ensures multiset(TasksOf(hs))[FiberTask(f)] == multiset(hs)[Waiter(f)]
    ensures forall t :: t in TasksOf(hs) ==> !t.TimerTask?
  {
    if hs != [] {
      var init, h := hs[..|hs| - 1], hs[|hs| - 1];
      assert hs == init + [h];
      TaskCounts(init, f);
      assert multiset(hs) == multiset(init) + multiset{h};
      assert multiset(TasksOf(hs)) == multiset(TasksOf(init)) + multiset{TaskOf(h)};
    }
  }

  lemma {:induction false} TimerTaskCounts(fired: seq<TimerId>)
    requires T.Distinct(fired)
    ensures forall a: TimerId :: multiset(TimerTasks(fired))[TimerTask(a)] == if a in fired then 1 else 0
    ensures forall t :: t in TimerTasks(fired) ==> t.TimerTask? && t.a in fired
  {
    if fired != [] {
      var init, last := fired[..|fired| - 1], fired[|fired| - 1];
      assert fired == init + [last];
      TimerTaskCounts(init);
      assert multiset(TimerTasks(fired)) == multiset(TimerTasks(init)) + multiset{TimerTask(last)};
    }
  }

  // ------------------------------------------------------------ event effects

  /** The waiters that left the slots are the ones handed over. */
  lemma IoMoves(io: I.State, io': I.State)
    requires I.Inv(io) && I.Inv(io')
    requires io'.added == io.added && io'.deleted == io.deleted && io.handed <= io'.handed
    requires forall h :: h in io.added ==> h.scheduler == 0
    ensures I.Registered(io.ctxs) == I.Registered(io'.ctxs) + multiset(NewHands(io, io'))
    ensures forall h :: h in NewHands(io, io') ==> h.scheduler == 0
  {
    hide I.Registered, I.BitsSet, I.CtxOk, I.KernelAgrees;
    var hs := NewHands(io, io');
    assert io'.handed == io.handed + hs;
    forall h | h in hs
      ensures h.scheduler == 0
    {
      assert multiset(io'.handed)[h] > 0;
      assert multiset(io'.added)[h] > 0;
    }
    MultisetCancel(multiset(io.added), I.Registered(io.ctxs), I.Registered(io'.ctxs),
                   multiset(io.handed), multiset(hs), multiset(io.deleted));
  }

  lemma MultisetCancel(a: multiset<I.Hand>, r: multiset<I.Hand>, r': multiset<I.Hand>,
                       h: multiset<I.Hand>, n: multiset<I.Hand>, d: multiset<I.Hand>)
    requires a == r + h + d && a == r' + (h + n) + d
    ensures r == r' + n
  {
    forall x: I.Hand
      ensures r[x] == (r' + n)[x]
    {
      assert (r + h + d)[x] == (r' + (h + n) + d)[x];
    }
  }

  /** Handing waiters over moves tokens from slots to the queue and touches no
      timer callback. */
  lemma IoTokens(w: World, io: I.State, f: FiberId)
    requires Sound(w) && I.Inv(io)
    requires io.added == w.io.added && io.deleted == w.io.deleted && w.io.handed <= io.handed
    ensures var w' := WithIo(w, io);
            Tokens(w', f) == Tokens(w, f) && InSlots(w', f) <= InSlots(w, f)
  {
    hide I.Registered, T.Inv, I.Inv;
    IoMoves(w.io, io);
    var hs := NewHands(w.io, io);
    TaskCounts(hs, f);
    assert multiset(w.queue + TasksOf(hs)) == multiset(w.queue) + multiset(TasksOf(hs));
  }

  lemma IoTimerTasks(w: World, io: I.State)
    requires Sound(w) && I.Inv(io)
    requires io.added == w.io.added && io.deleted == w.io.deleted && w.io.handed <= io.handed
    ensures var w' := WithIo(w, io);
            (forall a: TimerId :: InQueue(w', TimerTask(a)) == InQueue(w, TimerTask(a))) &&
            (forall i :: |w.queue| <= i < |w'.queue| ==> !w'.queue[i].TimerTask?)
  {
    hide I.Registered, T.Inv, I.Inv;
    IoMoves(w.io, io);
    var hs := NewHands(w.io, io);
    TaskCounts(hs, 0);
    var ts := TasksOf(hs);
    assert multiset(w.queue + ts) == multiset(w.queue) + multiset(ts);
    forall a: TimerId
      ensures multiset(ts)[TimerTask(a)] == 0
    {
      assert TimerTask(a) !in ts;
    }
  }

  lemma IoSound(w: World, io: I.State)
    requires Sound(w) && I.Inv(io)
    requires io.added == w.io.added && io.deleted == w.io.deleted && w.io.handed <= io.handed
    ensures Sound(WithIo(w, io))
  {
    hide T.Inv, I.Inv;
    IoTimerTasks(w, io);
    var w' := WithIo(w, io);
    forall a | TimerTask(a) in w'.queue
      ensures a in w.kinds
    {
      var i :| 0 <= i < |w'.queue| && w'.queue[i] == TimerTask(a);
      assert w'.queue[i] == w.queue[i];
    }
  }

  /** Any event call that only hands waiters over keeps the invariant. */
  lemma IoStep(w: World, io: I.State)
    requires Inv(w) && I.Inv(io)
    requires io.added == w.io.added && io.deleted == w.io.deleted && w.io.handed <= io.handed
    ensures Inv(WithIo(w, io))
  {
    hide T.Inv, I.Inv, WithIo, Tokens, InSlots, InQueue, Sound;
    var w' := WithIo(w, io);
    IoSound(w, io);
    IoTimerTasks(w, io);
    IoFrame(w, io);
    forall f: FiberId
      ensures FiberOk(w', f)
    {
      assert FiberOk(w, f);
      IoTokens(w, io, f);
      IoOnlySlots(w, f);
      IoOnlySlots(w', f);
    }
    forall a | a in w.kinds
      ensures TimerOk(w', a)
    {
      assert TimerOk(w, a);
    }
    AppendedAfter(w, w');
    SameRunner(w, w');
  }

  /** Entries that are no timer callbacks go behind everything. */
  lemma AppendedAfter(w: World, w': World)
    requires TimeoutsFirst(w) && w.queue <= w'.queue && w'.kinds == w.kinds
    requires forall i :: |w.queue| <= i < |w'.queue| ==> !IsTimeout(w, w'.queue[i])
    ensures TimeoutsFirst(w')
  {
    forall i, j | 0 <= i < j < |w'.queue| && IsTimeout(w', w'.queue[j])
      ensures !w'.queue[i].FiberTask?
    {
      assert w'.queue[j] == w.queue[j] && w'.queue[i] == w.queue[i];
    }
  }

  lemma SameRunner(w: World, w': World)
    requires OneRuns(w) && forall f :: Runs(w', f) ==> Runs(w, f)
    ensures OneRuns(w')
  {
  }

  lemma IoOnlySlots(w: World, f: FiberId)
    ensures Tokens(w, f) == InSlots(w, f) + InQueue(w, FiberTask(f))
  {
  }

  lemma IoFrame(w: World, io: I.State)
    ensures var w' := WithIo(w, io);
            w'.tm == w.tm && w'.kinds == w.kinds && w'.fibers == w.fibers && w'.calls == w.calls &&
            w'.now == w.now && w'.fired == w.fired && w.queue <= w'.queue
  {
  }
}
