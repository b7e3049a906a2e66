// The scheduler's task queue, its pool of workers, and the loop of one worker as
// values: what is taken next, how long an entry waits, what the counters count,
// which fiber a callback runs on, and when the loop ends.

module SchedSpec {
  import opened Common

  // ------------------------------------------------------------------- queue

  /** What to run: a fiber to resume or a callback to start. */
  datatype Job<F> = FiberJob(f: F) | CallbackJob(cb: nat)

  /** A queue entry, with the one thread that may take it, or ANY. */
  datatype Entry<F> = Entry(job: Job<F>, thread: int)

  const ANY: int := -1

  predicate Elsewhere<F>(e: Entry<F>, me: int) {
    e.thread != ANY && e.thread != me
  }

  /** Thread `me` may take the entry now; `exec` are the fibers being executed. */
  predicate Eligible<F(==)>(e: Entry<F>, me: int, exec: set<F>) {
    !Elsewhere(e, me) && !(e.job.FiberJob? && e.job.f in exec)
  }

  /** The position of the first entry that `me` may take, or the length. */
  function First<F(==)>(q: seq<Entry<F>>, me: int, exec: set<F>): (i: nat)
    ensures i <= |q|
  {
    if q == [] || Eligible(q[0], me, exec) then 0 else 1 + First(q[1..], me, exec)
  }

  function Without<F>(q: seq<Entry<F>>, i: nat): seq<Entry<F>>
    requires i < |q|
  {
    q[..i] + q[i + 1..]
  }

  /** A worker asks for help: it passed over an entry pinned to another thread, or
      leaves entries behind the one it takes. */
  predicate NeedsTickle<F(==)>(q: seq<Entry<F>>, me: int, exec: set<F>) {
    (exists j :: 0 <= j < First(q, me, exec) && Elsewhere(q[j], me)) || First(q, me, exec) + 1 < |q|
  }

  lemma {:induction false} FirstIs<F>(q: seq<Entry<F>>, me: int, exec: set<F>)
    ensures var i := First(q, me, exec);
            (i < |q| ==> Eligible(q[i], me, exec)) && forall j :: 0 <= j < i ==> !Eligible(q[j], me, exec)
  {
    if q != [] && !Eligible(q[0], me, exec) {
      FirstIs(q[1..], me, exec);
      assert q == [q[0]] + q[1..];
    }
  }

  lemma FirstUnique<F>(q: seq<Entry<F>>, me: int, exec: set<F>, i: nat)
    requires i <= |q| && (i < |q| ==> Eligible(q[i], me, exec))
    requires forall j :: 0 <= j < i ==> !Eligible(q[j], me, exec)
    ensures First(q, me, exec) == i
  {
    FirstIs(q, me, exec);
  }

  /** Thread `me` may take an entry that is for any thread or for itself, unless it
      is for a fiber being executed.  The scan stops at the first such entry, and
      asks for help exactly when it passed one for another thread or leaves entries
      behind. */
  lemma ScanMeans<F>(q: seq<Entry<F>>, me: int, exec: set<F>)
    ensures var i := First(q, me, exec);
            && (i < |q| ==>
                  (q[i].thread == -1 || q[i].thread == me) && (q[i].job.FiberJob? ==> q[i].job.f !in exec))
            && (forall j :: 0 <= j < i ==>
                  (q[j].thread != -1 && q[j].thread != me) || (q[j].job.FiberJob? && q[j].job.f in exec))
            && (NeedsTickle(q, me, exec) <==>
                  (exists j :: 0 <= j < i && q[j].thread != -1 && q[j].thread != me) || i + 1 < |q|)
  {
    FirstIs(q, me, exec);
    forall j | 0 <= j < First(q, me, exec)
      ensures !Eligible(q[j], me, exec) && (Elsewhere(q[j], me) <==> q[j].thread != -1 && q[j].thread != me)
    {
    }
  }

  // --------------------------------------------------------- bounded overtaking

  datatype QueueOp<F> = Push(e: Entry<F>) | Take(me: int, exec: set<F>)

  function Apply<F(==)>(q: seq<Entry<F>>, op: QueueOp<F>): seq<Entry<F>> {
    match op
    case Push(e) => q + [e]
    case Take(me, exec) => var i := First(q, me, exec); if i < |q| then Without(q, i) else q
  }

  /** Where the entry at `i` is after the operation; None when it was taken. */
  function Moved<F(==)>(q: seq<Entry<F>>, i: nat, op: QueueOp<F>): Option<nat> {
    if op.Push? then Some(i)
    else
      var k := First(q, op.me, op.exec);
      if k == i then None else if k < i then Some(i - 1) else Some(i)
  }

  lemma MovedIs<F>(q: seq<Entry<F>>, i: nat, op: QueueOp<F>)
    requires i < |q|
    ensures var k := Moved(q, i, op);
            (k.Some? ==> k.value < |Apply(q, op)| && Apply(q, op)[k.value] == q[i]) &&
            (k.None? ==> op.Take? && First(q, op.me, op.exec) == i)
  {
  }

  /** The takes of thread `who`, or of every thread. */
  predicate By<F>(op: QueueOp<F>, who: int) {
    op.Take? && (who == ANY || op.me == who)
  }

  function TakesBy<F>(ops: seq<QueueOp<F>>, who: int): nat {
    if ops == [] then 0 else (if By(ops[0], who) then 1 else 0) + TakesBy(ops[1..], who)
  }

  /** How many takes by `who` there are until the entry at `i` is taken, that one
      included; None when it never is. */
  function TakenAfter<F(==)>(q: seq<Entry<F>>, i: nat, ops: seq<QueueOp<F>>, who: int): Option<nat>
    decreases |ops|
  {
    if ops == [] then None
    else
      var n := if By(ops[0], who) then 1 else 0;
      match Moved(q, i, ops[0])
      case None => Some(n)
      case Some(k) =>
        match TakenAfter(Apply(q, ops[0]), k, ops[1..], who)
        case None => None
        case Some(m) => Some(n + m)
  }

  /** A callback at position `i` is taken within i + 1 takes by the threads that
      may run it, whatever is pushed and whoever else takes. */
  lemma {:induction false} BoundedOvertaking<F>(q: seq<Entry<F>>, i: nat, ops: seq<QueueOp<F>>)
    requires i < |q| && q[i].job.CallbackJob?
    ensures var n := TakenAfter(q, i, ops, q[i].thread);
            (TakesBy(ops, q[i].thread) > i ==> n.Some?) && (n.Some? ==> n.value <= i + 1)
    decreases |ops|
  {
    var who := q[i].thread;
    if ops != [] {
      MovedIs(q, i, ops[0]);
      if By(ops[0], who) {
        FirstIs(q, ops[0].me, ops[0].exec);
      }
      var k := Moved(q, i, ops[0]);
      if k.Some? {
        BoundedOvertaking(Apply(q, ops[0]), k.value, ops[1..]);
      }
    }
  }

  /** Taking never reorders what is left. */
  lemma TakeKeepsOrder<F>(q: seq<Entry<F>>, me: int, exec: set<F>, i: nat, j: nat)
    requires i < j < |q|
    ensures var a, b := Moved(q, i, Take(me, exec)), Moved(q, j, Take(me, exec));
            a.Some? && b.Some? ==> a.value < b.value
  {
  }

  /** What is pushed goes to the back; what is taken is the entry that was there, and
      nothing else goes. */
  lemma ApplyMeans<F>(q: seq<Entry<F>>, op: QueueOp<F>)
    ensures op.Push? ==> |Apply(q, op)| == |q| + 1 && Apply(q, op)[|q|] == op.e && q <= Apply(q, op)
    ensures op.Take? ==>
              forall i :: 0 <= i < |q| && Moved(q, i, op).Some? ==>
                Moved(q, i, op).value < |Apply(q, op)| && Apply(q, op)[Moved(q, i, op).value] == q[i]
    ensures op.Take? ==> |Apply(q, op)| == if First(q, op.me, op.exec) < |q| then |q| - 1 else |q|
  {
    hide Eligible;
  }

  // ---------------------------------------------------------------- the workers

  /** Where a worker is in its loop.  `Requeueing` is after the counter went down
      and before a fiber that yielded READY is queued again. */
  datatype Pc<F> =
    | AtHead
    | NoTask
    | Holding(e: Entry<F>, k: nat)
    | Executing(e: Entry<F>, k: nat)
    | Requeueing(ready: F, k: nat)
    | Idling
    | Exited

  /** `pushed` and `taken` are all entries queued and taken so far, `yielded` all
      fibers that yielded READY.  `holder` has the positions in `taken` of what is
      not finished, with the worker that has it; `owed` the positions in `yielded`
      of what is not queued again. */
  datatype Pool<F> = Pool(queue: seq<Entry<F>>, active: int, idle: int, pcs: map<int, Pc<F>>,
                          pushed: seq<Entry<F>>, taken: seq<Entry<F>>, yielded: seq<F>,
                          holder: map<nat, int>, owed: map<nat, int>)

  datatype Move<F> =
    | Schedule(e: Entry<F>)
    | TakeTask(w: int, exec: set<F>)
    | Start(w: int)
    | SkipFinished(w: int)
    | Back(w: int, again: Option<F>)
    | Requeue(w: int)
    | GoIdle(w: int)
    | LeaveIdle(w: int)
    | Exit(w: int)

  function PcOf<F>(p: Pool<F>, w: int): Pc<F> {
    if w in p.pcs then p.pcs[w] else Exited
  }

  /** Each worker is where the move begins. */
  predicate Able<F>(p: Pool<F>, m: Move<F>) {
    match m
    case Schedule(_) => true
    case TakeTask(w, _) => PcOf(p, w).AtHead?
    case Start(w) => PcOf(p, w).Holding?
    case SkipFinished(w) => PcOf(p, w).Holding? && PcOf(p, w).e.job.FiberJob?
    case Back(w, _) => PcOf(p, w).Executing?
    case Requeue(w) => PcOf(p, w).Requeueing?
    case GoIdle(w) => PcOf(p, w).NoTask?
    case LeaveIdle(w) => PcOf(p, w).Idling?
    case Exit(w) => PcOf(p, w).NoTask?
  }

  function Goto<F>(p: Pool<F>, w: int, pc: Pc<F>): Pool<F> {
    p.(pcs := p.pcs[w := pc])
  }

  function MoveOf<F(==)>(p: Pool<F>, m: Move<F>): Pool<F>
    requires Able(p, m)
  {
    match m
    case Schedule(e) => p.(queue := p.queue + [e], pushed := p.pushed + [e])
    case TakeTask(w, exec) =>
      var i := First(p.queue, w, exec);
      if i < |p.queue| then
        Goto(p, w, Holding(p.queue[i], |p.taken|)).(
          queue := Without(p.queue, i), active := p.active + 1, taken := p.taken + [p.queue[i]],
          holder := p.holder[|p.taken| := w])
      else Goto(p, w, NoTask)
    case Start(w) => Goto(p, w, Executing(p.pcs[w].e, p.pcs[w].k))
    case SkipFinished(w) => Goto(p, w, AtHead).(active := p.active - 1, holder := p.holder - {p.pcs[w].k})
    case Back(w, again) =>
      var q := Goto(p, w, if again.Some? then Requeueing(again.value, |p.yielded|) else AtHead).(
                 active := p.active - 1, holder := p.holder - {p.pcs[w].k});
      if again.Some? then q.(yielded := p.yielded + [again.value], owed := p.owed[|p.yielded| := w]) else q
    case Requeue(w) =>
      var e := Entry(FiberJob(p.pcs[w].ready), ANY);
      Goto(p, w, AtHead).(queue := p.queue + [e], pushed := p.pushed + [e], owed := p.owed - {p.pcs[w].k})
    case GoIdle(w) => Goto(p, w, Idling).(idle := p.idle + 1)
    case LeaveIdle(w) => Goto(p, w, AtHead).(idle := p.idle - 1)
    case Exit(w) => Goto(p, w, Exited)
  }

  /** Between the dequeue and the matching decrement. */
  predicate Between<F>(pc: Pc<F>) {
    pc.Holding? || pc.Executing?
  }

  function BetweenSet<F>(pcs: map<int, Pc<F>>): set<int> {
    set w | w in pcs && Between(pcs[w])
  }

  function IdleSet<F>(pcs: map<int, Pc<F>>): set<int> {
    set w | w in pcs && pcs[w].Idling?
  }

  /** What is taken and not finished is in the hands of workers, each of its own,
      and nothing else is. */
  predicate InHand<F(==)>(p: Pool<F>) {
    && (forall i :: i in p.holder ==>
          i < |p.taken| && p.holder[i] in p.pcs && Between(p.pcs[p.holder[i]]) && p.pcs[p.holder[i]].k == i)
    && (forall w :: w in p.pcs && Between(p.pcs[w]) ==>
          p.pcs[w].k in p.holder && p.holder[p.pcs[w].k] == w && p.pcs[w].k < |p.taken| &&
          p.taken[p.pcs[w].k] == p.pcs[w].e)
  }

  /** So is what yielded READY and is not queued again. */
  predicate Owing<F(==)>(p: Pool<F>) {
    && (forall i :: i in p.owed ==>
          i < |p.yielded| && p.owed[i] in p.pcs && p.pcs[p.owed[i]].Requeueing? && p.pcs[p.owed[i]].k == i)
    && (forall w :: w in p.pcs && p.pcs[w].Requeueing? ==>
          p.pcs[w].k in p.owed && p.owed[p.pcs[w].k] == w && p.pcs[w].k < |p.yielded| &&
          p.yielded[p.pcs[w].k] == p.pcs[w].ready)
  }

  /** The active counter is the number of workers between a dequeue and its
      decrement, the idle counter that of idle ones; every entry queued is still
      queued or was taken, once; and the workers have in hand exactly what was taken
      and is not finished, and what yielded READY and is not queued again. */
  ghost predicate PoolInv<F>(p: Pool<F>) {
    && p.active == |BetweenSet(p.pcs)|
    && p.idle == |IdleSet(p.pcs)|
    && multiset(p.pushed) == multiset(p.queue) + multiset(p.taken)
    && InHand(p) && Owing(p)
  }

  lemma Counted<F>(pcs: map<int, Pc<F>>, w: int, pc: Pc<F>)
    requires w in pcs
    ensures |BetweenSet(pcs[w := pc])| + (if Between(pcs[w]) then 1 else 0) ==
            |BetweenSet(pcs)| + (if Between(pc) then 1 else 0)
    ensures |IdleSet(pcs[w := pc])| + (if pcs[w].Idling? then 1 else 0) ==
            |IdleSet(pcs)| + (if pc.Idling? then 1 else 0)
  {
    var a, b := BetweenSet(pcs), BetweenSet(pcs[w := pc]);
    assert a - {w} == b - {w} && (w in a <==> Between(pcs[w])) && (w in b <==> Between(pc));
    var c, d := IdleSet(pcs), IdleSet(pcs[w := pc]);
    assert c - {w} == d - {w} && (w in c <==> pcs[w].Idling?) && (w in d <==> pc.Idling?);
    hide BetweenSet, IdleSet, Between;
    DifferInOne(a, b, w);
    DifferInOne(c, d, w);
  }

  lemma DifferInOne(a: set<int>, b: set<int>, w: int)
    requires a - {w} == b - {w}
    ensures |b| + (if w in a then 1 else 0) == |a| + (if w in b then 1 else 0)
  {
    assert a == (a - {w}) + (if w in a then {w} else {});
    assert b == (b - {w}) + (if w in b then {w} else {});
  }

  lemma TakenOnce<F>(q: seq<Entry<F>>, i: nat)
    requires i < |q|
    ensures multiset(q) == multiset(Without(q, i)) + multiset{q[i]}
  {
    assert q == q[..i] + [q[i]] + q[i + 1..];
  }

  lemma MoveConserves<F>(p: Pool<F>, m: Move<F>)
    requires Able(p, m) && multiset(p.pushed) == multiset(p.queue) + multiset(p.taken)
    ensures var p' := MoveOf(p, m); multiset(p'.pushed) == multiset(p'.queue) + multiset(p'.taken)
  {
    hide First, Without;
    if m.TakeTask? && First(p.queue, m.w, m.exec) < |p.queue| {
      TakenOnce(p.queue, First(p.queue, m.w, m.exec));
    }
  }

  /** Every move does to the queue what pushes and takes do: one push, one take, or
      nothing. */
  lemma MoveQueues<F>(p: Pool<F>, m: Move<F>)
    requires Able(p, m)
    ensures MoveOf(p, m).queue ==
              match m
              case Schedule(e) => Apply(p.queue, Push(e))
              case TakeTask(w, exec) => Apply(p.queue, Take(w, exec))
              case Requeue(w) => Apply(p.queue, Push(Entry(FiberJob(p.pcs[w].ready), -1)))
              case _ => p.queue
  {
    hide First, Without;
  }

  lemma MoveCounts<F>(p: Pool<F>, m: Move<F>)
    requires Able(p, m) && p.active == |BetweenSet(p.pcs)| && p.idle == |IdleSet(p.pcs)|
    ensures var p' := MoveOf(p, m); p'.active == |BetweenSet(p'.pcs)| && p'.idle == |IdleSet(p'.pcs)|
  {
    hide BetweenSet, IdleSet, First, Without;
    if !m.Schedule? {
      Counted(p.pcs, m.w, MoveOf(p, m).pcs[m.w]);
    }
  }

  lemma HandEnters<F>(p: Pool<F>, p': Pool<F>, w: int, e: Entry<F>)
    requires InHand(p) && w in p.pcs && !Between(p.pcs[w])
    requires p'.pcs == p.pcs[w := Holding(e, |p.taken|)] && p'.taken == p.taken + [e] && p'.holder == p.holder[|p.taken| := w]
    ensures InHand(p')
  {
  }

  lemma HandStays<F>(p: Pool<F>, p': Pool<F>, w: int, pc: Pc<F>)
    requires InHand(p) && w in p.pcs && p'.pcs == p.pcs[w := pc] && p'.taken == p.taken && p'.holder == p.holder
    requires Between(pc) == Between(p.pcs[w]) && (Between(pc) ==> pc.e == p.pcs[w].e && pc.k == p.pcs[w].k)
    ensures InHand(p')
  {
  }

  lemma HandLeaves<F>(p: Pool<F>, p': Pool<F>, w: int, pc: Pc<F>)
    requires InHand(p) && w in p.pcs && Between(p.pcs[w]) && !Between(pc)
    requires p'.pcs == p.pcs[w := pc] && p'.taken == p.taken && p'.holder == p.holder - {p.pcs[w].k}
    ensures InHand(p')
  {
  }

  lemma MoveHands<F>(p: Pool<F>, m: Move<F>)
    requires Able(p, m) && InHand(p)
    ensures InHand(MoveOf(p, m))
  {
    hide First, Without, InHand;
    var p' := MoveOf(p, m);
    match m
    case Schedule(_) => SameHands(p, p');
    case TakeTask(w, exec) =>
      var i := First(p.queue, w, exec);
      if i < |p.queue| {
        HandEnters(p, p', w, p.queue[i]);
      } else {
        HandStays(p, p', w, NoTask);
      }
    case SkipFinished(w) => HandLeaves(p, p', w, p'.pcs[w]);
    case Back(w, _) => HandLeaves(p, p', w, p'.pcs[w]);
    case _ => HandStays(p, p', m.w, p'.pcs[m.w]);
  }

  lemma SameHands<F>(p: Pool<F>, p': Pool<F>)
    requires p'.pcs == p.pcs && p'.taken == p.taken && p'.holder == p.holder
    ensures InHand(p') == InHand(p)
  {
  }

  lemma OweEnters<F>(p: Pool<F>, p': Pool<F>, w: int, f: F)
    requires Owing(p) && w in p.pcs && !p.pcs[w].Requeueing?
    requires p'.pcs == p.pcs[w := Requeueing(f, |p.yielded|)] && p'.yielded == p.yielded + [f] && p'.owed == p.owed[|p.yielded| := w]
    ensures Owing(p')
  {
  }

  lemma OweStays<F>(p: Pool<F>, p': Pool<F>, w: int, pc: Pc<F>)
    requires Owing(p) && w in p.pcs && p'.pcs == p.pcs[w := pc] && p'.yielded == p.yielded && p'.owed == p.owed
    requires !pc.Requeueing? && !p.pcs[w].Requeueing?
    ensures Owing(p')
  {
  }

  lemma OweLeaves<F>(p: Pool<F>, p': Pool<F>, w: int, pc: Pc<F>)
    requires Owing(p) && w in p.pcs && p.pcs[w].Requeueing? && !pc.Requeueing?
    requires p'.pcs == p.pcs[w := pc] && p'.yielded == p.yielded && p'.owed == p.owed - {p.pcs[w].k}
    ensures Owing(p')
  {
  }

  lemma MoveOwes<F>(p: Pool<F>, m: Move<F>)
    requires Able(p, m) && Owing(p)
    ensures Owing(MoveOf(p, m))
  {
    hide First, Without, Owing;
    var p' := MoveOf(p, m);
    match m
    case Schedule(_) => SameOwed(p, p');
    case Back(w, again) =>
      if again.Some? {
        OweEnters(p, p', w, again.value);
      } else {
        OweStays(p, p', w, AtHead);
      }
    case Requeue(w) => OweLeaves(p, p', w, AtHead);
    case _ => OweStays(p, p', m.w, p'.pcs[m.w]);
  }

  lemma SameOwed<F>(p: Pool<F>, p': Pool<F>)
    requires p'.pcs == p.pcs && p'.yielded == p.yielded && p'.owed == p.owed
    ensures Owing(p') == Owing(p)
  {
  }

  lemma MoveInv<F>(p: Pool<F>, m: Move<F>)
    requires PoolInv(p) && Able(p, m)
    ensures PoolInv(MoveOf(p, m))
  {
    hide MoveOf, BetweenSet, IdleSet, InHand, Owing;
    MoveCounts(p, m);
    MoveConserves(p, m);
    MoveHands(p, m);
    MoveOwes(p, m);
  }

  ghost predicate AbleRun<F>(p: Pool<F>, ms: seq<Move<F>>)
    decreases |ms|
  {
    ms != [] ==> Able(p, ms[0]) && AbleRun(MoveOf(p, ms[0]), ms[1..])
  }

  ghost function PoolRun<F>(p: Pool<F>, ms: seq<Move<F>>): Pool<F>
    requires AbleRun(p, ms)
    decreases |ms|
  {
    if ms == [] then p else PoolRun(MoveOf(p, ms[0]), ms[1..])
  }

  lemma {:induction false} PoolRunInv<F>(p: Pool<F>, ms: seq<Move<F>>)
    requires PoolInv(p) && AbleRun(p, ms)
    ensures PoolInv(PoolRun(p, ms))
    decreases |ms|
  {
    hide PoolInv, MoveOf, Able;
    if ms != [] {
      MoveInv(p, ms[0]);
      PoolRunInv(MoveOf(p, ms[0]), ms[1..]);
    }
  }

  /** Nobody has an entry that is pinned to another thread. */
  ghost predicate Pinned<F>(p: Pool<F>) {
    forall w :: w in p.pcs && Between(p.pcs[w]) ==> p.pcs[w].e.thread == -1 || p.pcs[w].e.thread == w
  }

  lemma PinnedMove<F>(p: Pool<F>, m: Move<F>)
    requires Pinned(p) && Able(p, m)
    ensures Pinned(MoveOf(p, m))
  {
    hide First, Without;
    if m.TakeTask? {
      ScanMeans(p.queue, m.w, m.exec);
    }
  }

  /** On every run of any workers a worker has in hand, and runs, only entries that
      are for any thread or for itself. */
  lemma {:induction false} PinnedRun<F>(p: Pool<F>, ms: seq<Move<F>>)
    requires Pinned(p) && AbleRun(p, ms)
    ensures Pinned(PoolRun(p, ms))
    decreases |ms|
  {
    hide Pinned, MoveOf, Able;
    if ms != [] {
      PinnedMove(p, ms[0]);
      PinnedRun(MoveOf(p, ms[0]), ms[1..]);
    }
  }

  /** So from the start. */
  lemma NeverElsewhere<F>(workers: set<int>, ms: seq<Move<F>>, w: int)
    requires AbleRun(NewPool<F>(workers), ms)
    ensures var pc := PcOf(PoolRun(NewPool<F>(workers), ms), w);
            pc.Holding? || pc.Executing? ==> pc.e.thread == -1 || pc.e.thread == w
  {
    hide PoolRun, AbleRun;
    PinnedRun(NewPool<F>(workers), ms);
  }

  /** What the scheduler's half of `stopping` looks at. */
  predicate LooksDone<F>(p: Pool<F>) {
    p.queue == [] && p.active == 0
  }

  /** Nothing is queued, every entry taken is finished, and every fiber that
      yielded READY was queued again. */
  predicate Done<F>(p: Pool<F>) {
    p.queue == [] && p.holder == map[] && p.owed == map[]
  }

  lemma NobodyBetween<F>(pcs: map<int, Pc<F>>)
    ensures |BetweenSet(pcs)| == 0 <==> forall w :: w in pcs ==> !Between(pcs[w])
  {
    if |BetweenSet(pcs)| == 0 {
      forall w | w in pcs
        ensures !Between(pcs[w])
      {
        assert w !in BetweenSet(pcs);
      }
    }
    if forall w :: w in pcs ==> !Between(pcs[w]) {
      assert BetweenSet(pcs) == {};
    }
  }

  lemma NothingInHand<F>(p: Pool<F>)
    requires InHand(p) && Owing(p)
    ensures p.holder == map[] <==> forall w :: w in p.pcs ==> !Between(p.pcs[w])
    ensures p.owed == map[] <==> forall w :: w in p.pcs ==> !p.pcs[w].Requeueing?
  {
    if forall w :: w in p.pcs ==> !Between(p.pcs[w]) {
      assert forall i :: i !in p.holder;
    }
    if forall w :: w in p.pcs ==> !p.pcs[w].Requeueing? {
      assert forall i :: i !in p.owed;
    }
  }

  /** After any run of any workers: the scheduler looks done exactly when the queue
      is empty and no worker is between a dequeue and its decrement; everything
      queued was taken and finished then; and it is done exactly when, besides, no
      worker is between the decrement and the requeue of a fiber that yielded
      READY. */
  lemma LooksDoneMeans<F>(workers: set<int>, ms: seq<Move<F>>)
    requires AbleRun(NewPool<F>(workers), ms)
    ensures var p := PoolRun(NewPool<F>(workers), ms);
            (LooksDone(p) <==> p.queue == [] && forall w :: w in p.pcs ==> !Between(p.pcs[w])) &&
            (LooksDone(p) ==> multiset(p.pushed) == multiset(p.taken) && p.holder == map[]) &&
            (Done(p) <==> LooksDone(p) && forall w :: w in p.pcs ==> !p.pcs[w].Requeueing?)
  {
    hide AbleRun, PoolRun, BetweenSet, IdleSet, Between, InHand, Owing;
    NewPoolInv<F>(workers);
    PoolRunInv(NewPool<F>(workers), ms);
    NobodyBetween(PoolRun(NewPool<F>(workers), ms).pcs);
    NothingInHand(PoolRun(NewPool<F>(workers), ms));
  }

  function NewPool<F>(workers: set<int>): Pool<F> {
    Pool([], 0, 0, map w | w in workers :: AtHead, [], [], [], map[], map[])
  }

  lemma NewPoolInv<F>(workers: set<int>)
    ensures PoolInv(NewPool<F>(workers))
  {
    var p := NewPool<F>(workers);
    forall w | w in p.pcs
      ensures !Between(p.pcs[w]) && !p.pcs[w].Idling? && !p.pcs[w].Requeueing?
    {
      assert p.pcs[w] == AtHead;
    }
    assert BetweenSet(p.pcs) == {} && IdleSet(p.pcs) == {};
  }

  /** Looking done is not being done: a fiber that yielded READY is counted by
      nothing between the decrement and its return to the queue. */
  lemma ReadyFiberUnseen(f: nat)
    ensures var ms := [Schedule(Entry(FiberJob(f), ANY)), TakeTask(0, {}), Start(0), Back(0, Some(f))];
            AbleRun(NewPool<nat>({0}), ms) &&
            var p := PoolRun(NewPool<nat>({0}), ms);
            LooksDone(p) && !Done(p) && PcOf(p, 0) == Requeueing(f, 0)
  {
    hide AbleRun, PoolRun, Able, MoveOf;
    var e: Entry<nat> := Entry(FiberJob(f), ANY);
    var p2 := TakenFirst(f);
    var p4 := YieldedReady(p2, f);
    NoMoves(p4);
    var p0 := NewPool<nat>({0});
    var p1 := MoveOf(p0, Schedule(e));
    var p3 := MoveOf(p2, Start(0));
    PoolCons(p3, Back(0, Some(f)), []);
    assert [Back(0, Some(f))] + [] == [Back(0, Some(f))];
    PoolCons(p2, Start(0), [Back(0, Some(f))]);
    assert [Start(0)] + [Back(0, Some(f))] == [Start(0), Back(0, Some(f))];
    PoolCons(p1, TakeTask(0, {}), [Start(0), Back(0, Some(f))]);
    assert [TakeTask(0, {})] + [Start(0), Back(0, Some(f))] == [TakeTask(0, {}), Start(0), Back(0, Some(f))];
    PoolCons(p0, Schedule(e), [TakeTask(0, {}), Start(0), Back(0, Some(f))]);
    assert [Schedule(e)] + [TakeTask(0, {}), Start(0), Back(0, Some(f))] ==
           [Schedule(e), TakeTask(0, {}), Start(0), Back(0, Some(f))];
  }

  lemma TakenFirst(f: nat) returns (p2: Pool<nat>)
    ensures var (p0, e) := (NewPool<nat>({0}), Entry(FiberJob(f), ANY));
            Able(p0, Schedule(e)) && Able(MoveOf(p0, Schedule(e)), TakeTask(0, {})) &&
            p2 == MoveOf(MoveOf(p0, Schedule(e)), TakeTask(0, {}))
    ensures p2.queue == [] && p2.active == 1 && p2.pcs == map[0 := Holding(Entry(FiberJob(f), ANY), 0)]
    ensures p2.yielded == [] && p2.owed == map[]
  {
    var e: Entry<nat> := Entry(FiberJob(f), ANY);
    var p1 := MoveOf(NewPool<nat>({0}), Schedule(e));
    assert p1.queue == [e];
    p2 := MoveOf(p1, TakeTask(0, {}));
  }

  lemma YieldedReady(p2: Pool<nat>, f: nat) returns (p4: Pool<nat>)
    requires p2.queue == [] && p2.active == 1 && p2.pcs == map[0 := Holding(Entry(FiberJob(f), ANY), 0)]
    requires p2.yielded == [] && p2.owed == map[]
    ensures Able(p2, Start(0)) && Able(MoveOf(p2, Start(0)), Back(0, Some(f)))
    ensures p4 == MoveOf(MoveOf(p2, Start(0)), Back(0, Some(f)))
    ensures LooksDone(p4) && !Done(p4) && PcOf(p4, 0) == Requeueing(f, 0)
  {
    p4 := MoveOf(MoveOf(p2, Start(0)), Back(0, Some(f)));
    assert 0 in p4.owed;
  }

  lemma NoMoves<F>(p: Pool<F>)
    ensures AbleRun(p, []) && PoolRun(p, []) == p
  {
  }

  lemma PoolCons<F>(p: Pool<F>, m: Move<F>, ms: seq<Move<F>>)
    requires Able(p, m) && AbleRun(MoveOf(p, m), ms)
    ensures AbleRun(p, [m] + ms) && PoolRun(p, [m] + ms) == PoolRun(MoveOf(p, m), ms)
  {
    hide Able, MoveOf;
    assert ([m] + ms)[1..] == ms;
  }
}
