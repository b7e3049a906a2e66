// The timer set as values: what each public call does to it, and what holds over
// whole runs of calls.

module TimerSpec {
  import opened Common

  type Id = nat
  type Callback = nat

  /** A timer: `next` is its deadline, and `cb` is emptied when it is cancelled or
      delivered for good. */
  datatype Rec = Rec(recurring: bool, ms: nat, next: nat, cb: Option<Callback>)

  /** Every timer ever created, by address; the ordered set as the sequence an
      iteration visits; the tickle flag and the last time the clock was looked
      at.  `armed` remembers which timers were created with a callback. */
  datatype State = State(info: map<Id, Rec>, order: seq<Id>, tickled: bool, previous: nat, armed: set<Id>)

  datatype Key = Key(next: nat, addr: nat)

  const NEVER: nat := U64 - 1
  const HOUR: nat := 60 * 60 * 1000

  /** The comparator on timers that are not null. */
  predicate Less(a: Key, b: Key) {
    a.next < b.next || (a.next == b.next && a.addr < b.addr)
  }

  function At(info: map<Id, Rec>, a: Id): Rec {
    if a in info then info[a] else Rec(false, 0, 0, None)
  }

  function KeyOf(info: map<Id, Rec>, a: Id): Key {
    Key(At(info, a).next, a)
  }

  /** Deadlines are unsigned 64-bit and wrap. */
  function Deadline(start: nat, ms: nat): nat {
    (start + ms) % U64
  }

  // -------------------------------------------------------- the ordered set

  /** std::set::lower_bound */
  function LowerBound(order: seq<Id>, info: map<Id, Rec>, key: Key): (i: nat)
    ensures i <= |order|
  {
    if order != [] && Less(KeyOf(info, order[0]), key)
    then 1 + LowerBound(order[1..], info, key) else 0
  }

  /** std::set::find */
  function Find(order: seq<Id>, info: map<Id, Rec>, a: Id): (r: Option<nat>)
    ensures r.Some? ==> r.value < |order|
  {
    var i := LowerBound(order, info, KeyOf(info, a));
    if i < |order| && !Less(KeyOf(info, a), KeyOf(info, order[i])) then Some(i) else None
  }

  /** std::set::insert: the sequence after it and the position returned. */
  function Insert(order: seq<Id>, info: map<Id, Rec>, a: Id): (r: (seq<Id>, nat))
  {
    var i := LowerBound(order, info, KeyOf(info, a));
    if i < |order| && !Less(KeyOf(info, a), KeyOf(info, order[i])) then (order, i)
    else (order[..i] + [a] + order[i..], i)
  }

  function EraseAt(order: seq<Id>, i: nat): seq<Id>
    requires i < |order|
  {
    order[..i] + order[i + 1..]
  }

  ghost predicate Sorted(order: seq<Id>, info: map<Id, Rec>) {
    forall i, j :: 0 <= i < j < |order| ==> Less(KeyOf(info, order[i]), KeyOf(info, order[j]))
  }

  lemma {:induction false} LowerBoundSplits(order: seq<Id>, info: map<Id, Rec>, key: Key)
    requires Sorted(order, info)
    ensures var i := LowerBound(order, info, key);
            (forall j :: 0 <= j < i ==> Less(KeyOf(info, order[j]), key)) &&
            (forall j :: i <= j < |order| ==> !Less(KeyOf(info, order[j]), key))
  {
    if order != [] && Less(KeyOf(info, order[0]), key) {
      LowerBoundSplits(order[1..], info, key);
      assert order == [order[0]] + order[1..];
    }
  }

  /** Finding an element of the set finds it. */
  lemma FindMember(order: seq<Id>, info: map<Id, Rec>, a: Id)
    requires Sorted(order, info)
    ensures a in order ==> Find(order, info, a).Some? && order[Find(order, info, a).value] == a
    ensures a !in order ==> Find(order, info, a).None?
  {
    var i := LowerBound(order, info, KeyOf(info, a));
    LowerBoundSplits(order, info, KeyOf(info, a));
    if a in order {
      var k :| 0 <= k < |order| && order[k] == a;
      assert !Less(KeyOf(info, a), KeyOf(info, a));
    }
  }

  /** What inserting a new element gives. */
  lemma InsertSorted(order: seq<Id>, info: map<Id, Rec>, a: Id)
    requires Sorted(order, info) && a !in order
    ensures var (after, i) := Insert(order, info, a);
            Sorted(after, info) && i < |after| && after[i] == a && |after| == |order| + 1 &&
            (forall x :: x in after <==> x in order || x == a) &&
            (i > 0 ==> order != [] && after[0] == order[0])
  {
    hide Sorted;
    var key := KeyOf(info, a);
    var i := LowerBound(order, info, key);
    LowerBoundSplits(order, info, key);
    forall j | i <= j < |order|
      ensures Less(key, KeyOf(info, order[j]))
    {
      assert order[j] in order;
    }
    SplicedSorted(order, info, i, a);
    InsertMembers(order, i, a);
  }

  lemma SplicedSorted(order: seq<Id>, info: map<Id, Rec>, i: nat, a: Id)
    requires Sorted(order, info) && i <= |order|
    requires forall j :: 0 <= j < i ==> Less(KeyOf(info, order[j]), KeyOf(info, a))
    requires forall j :: i <= j < |order| ==> Less(KeyOf(info, a), KeyOf(info, order[j]))
    ensures Sorted(order[..i] + [a] + order[i..], info)
  {
    hide KeyOf, Less;
    var after := order[..i] + [a] + order[i..];
    assert forall j :: 0 <= j < |after| ==>
      after[j] == if j < i then order[j] else if j == i then a else order[j - 1];
  }

  lemma InsertMembers(order: seq<Id>, i: nat, a: Id)
    requires i <= |order|
    ensures var after := order[..i] + [a] + order[i..];
            forall x :: x in after <==> x in order || x == a
  {
    assert order == order[..i] + order[i..];
  }

  lemma EraseSorted(order: seq<Id>, info: map<Id, Rec>, i: nat)
    requires Sorted(order, info) && i < |order|
    ensures var after := EraseAt(order, i);
            Sorted(after, info) && (forall x :: x in after <==> x in order && x != order[i])
  {
    var after := EraseAt(order, i);
    assert forall j :: 0 <= j < |after| ==> after[j] == if j < i then order[j] else order[j + 1];
    forall x | x in order && x != order[i]
      ensures x in after
    {
      var k :| 0 <= k < |order| && order[k] == x;
      assert after[if k < i then k else k - 1] == x;
    }
    forall j, k | 0 <= j < k < |order|
      ensures order[j] != order[k]
    {
      assert Less(KeyOf(info, order[j]), KeyOf(info, order[k]));
    }
  }

  /** Only the records of its elements matter to the order of a set. */
  lemma SortedFrame(order: seq<Id>, info: map<Id, Rec>, info': map<Id, Rec>)
    requires Sorted(order, info)
    requires forall x :: x in order ==> At(info', x).next == At(info, x).next
    ensures Sorted(order, info')
  {
    forall i, j | 0 <= i < j < |order|
      ensures Less(KeyOf(info', order[i]), KeyOf(info', order[j]))
    {
      assert order[i] in order && order[j] in order;
      assert Less(KeyOf(info, order[i]), KeyOf(info, order[j]));
    }
  }

  // ------------------------------------------------------------ public calls

  datatype Op =
    | Add(a: Id, ms: nat, cb: Option<Callback>, recurring: bool)
    | Cancel(a: Id)
    | Refresh(a: Id)
    | Reset(a: Id, ms: nat, fromNow: bool)
    | GetNextTimer
    | ListExpiredCb(probe: Id)

  /** What a call gives: its boolean result, whether it woke the poller, the
      timers whose callbacks it handed out in order, and the time to sleep. */
  datatype Out = Out(ok: bool, woke: bool, fired: seq<Id>, timeout: nat)

  const DONE := Out(true, false, [], 0)
  const REFUSED := Out(false, false, [], 0)

  /** The protected addTimer: insert, and wake the poller for a new front unless
      it is already being woken. */
  function InsertAndTickle(s: State, a: Id): (r: (State, Out))
    ensures r.1.ok
  {
    var (order, i) := Insert(s.order, s.info, a);
    var atFront := i == 0 && !s.tickled;
    (s.(order := order, tickled := s.tickled || atFront), DONE.(woke := atFront))
  }

  function DoAdd(s: State, a: Id, ms: nat, cb: Option<Callback>, recurring: bool, now: nat): (State, Out) {
    InsertAndTickle(
      s.(info := s.info[a := Rec(recurring, ms, Deadline(now, ms), cb)],
         armed := if cb.Some? then s.armed + {a} else s.armed), a)
  }

  /** The erase goes through the iterator that find returned, unchecked. */
  function DoCancel(s: State, a: Id): (State, Out) {
    var r := At(s.info, a);
    if r.cb.None? then (s, REFUSED)
    else
      var info := s.info[a := r.(cb := None)];
      var it := Find(s.order, info, a);
      (s.(info := info, order := if it.Some? then EraseAt(s.order, it.value) else s.order), DONE)
  }

  function DoRefresh(s: State, a: Id, now: nat): (State, Out) {
    var r := At(s.info, a);
    var it := Find(s.order, s.info, a);
    if r.cb.None? || it.None? then (s, REFUSED)
    else
      var info := s.info[a := r.(next := Deadline(now, r.ms))];
      (s.(info := info, order := Insert(EraseAt(s.order, it.value), info, a).0), DONE)
  }

  function DoReset(s: State, a: Id, ms: nat, fromNow: bool, now: nat): (State, Out) {
    var r := At(s.info, a);
    if ms == r.ms && !fromNow then (s, DONE)
    else
      var it := Find(s.order, s.info, a);
      if r.cb.None? || it.None? then (s, REFUSED)
      else
        var start := if fromNow then now else (r.next - r.ms) % U64;
        var info := s.info[a := r.(ms := ms, next := Deadline(start, ms))];
        InsertAndTickle(s.(info := info, order := EraseAt(s.order, it.value)), a)
  }

  function DoGetNextTimer(s: State, now: nat): (State, Out) {
    var s' := s.(tickled := false);
    if s.order == [] then (s', DONE.(timeout := NEVER))
    else
      var next := At(s.info, s.order[0]).next;
      (s', DONE.(timeout := if now >= next then 0 else next - now))
  }

  /** The clock went back by more than an hour; the hour is taken off unsigned. */
  predicate Rollover(previous: nat, now: nat) {
    now < previous && now < (previous - HOUR) % U64
  }

  /** From `i` on, past the deadlines equal to `now`. */
  function SkipEqual(order: seq<Id>, info: map<Id, Rec>, i: nat, now: nat): (k: nat)
    requires i <= |order|
    ensures i <= k <= |order|
    decreases |order| - i
  {
    if i < |order| && At(info, order[i]).next == now then SkipEqual(order, info, i + 1, now) else i
  }

  /** How many timers leave the set. */
  function ExpiredCount(s: State, now: nat, probe: Id): (k: nat)
    ensures k <= |s.order|
  {
    if Rollover(s.previous, now) then |s.order|
    else SkipEqual(s.order, s.info, LowerBound(s.order, s.info, Key(now, probe)), now)
  }

  /** The loop over the expired timers: recurring ones go back in, the others
      lose their callback. */
  function Rearm(s: State, expired: seq<Id>, now: nat): State
    decreases |expired|
  {
    if expired == [] then s else Rearm(RearmOne(s, expired[0], now), expired[1..], now)
  }

  function RearmOne(s: State, a: Id, now: nat): State {
    var r := At(s.info, a);
    if r.recurring then
      var info := s.info[a := r.(next := Deadline(now, r.ms))];
      s.(info := info, order := Insert(s.order, info, a).0)
    else s.(info := s.info[a := r.(cb := None)])
  }

  function DoListExpiredCb(s: State, now: nat, probe: Id): (State, Out) {
    if s.order == [] then (s, DONE)
    else
      var s' := s.(previous := now);
      if !Rollover(s.previous, now) && At(s.info, s.order[0]).next > now then (s', DONE)
      else
        var k := ExpiredCount(s, now, probe);
        (Rearm(s'.(order := s.order[k..]), s.order[..k], now), DONE.(fired := s.order[..k]))
  }

  function Step(s: State, op: Op, now: nat): (State, Out) {
    match op
    case Add(a, ms, cb, recurring) => DoAdd(s, a, ms, cb, recurring, now)
    case Cancel(a) => DoCancel(s, a)
    case Refresh(a) => DoRefresh(s, a, now)
    case Reset(a, ms, fromNow) => DoReset(s, a, ms, fromNow, now)
    case GetNextTimer => DoGetNextTimer(s, now)
    case ListExpiredCb(probe) => DoListExpiredCb(s, now, probe)
  }

  /** A new timer has a new address; the other calls are on timers that exist. */
  predicate Legal(s: State, op: Op) {
    match op
    case Add(a, _, _, _) => a !in s.info
    case Cancel(a) => a in s.info
    case Refresh(a) => a in s.info
    case Reset(a, _, _) => a in s.info
    case _ => true
  }

  // -------------------------------------------------------------- lifecycle

  /** A timer created with a callback is in the set exactly while it has one; the
      set is strictly sorted. */
  ghost predicate Inv(s: State) {
    && Sorted(s.order, s.info)
    && (forall a :: a in s.order ==> a in s.info)
    && (forall a :: a in s.armed ==> a in s.info)
    && (forall a :: a in s.info && s.info[a].cb.Some? ==> a in s.order && a in s.armed)
    && (forall a :: a in s.order && a in s.armed ==> s.info[a].cb.Some?)
  }

  lemma Initially(now: nat)
    ensures Inv(State(map[], [], false, now, {}))
  {
  }

  lemma AddInv(s: State, a: Id, ms: nat, cb: Option<Callback>, recurring: bool, now: nat)
    requires Inv(s) && a !in s.info
    ensures Inv(DoAdd(s, a, ms, cb, recurring, now).0)
  {
    hide Insert, Sorted, Deadline;
    var info := s.info[a := Rec(recurring, ms, Deadline(now, ms), cb)];
    SortedFrame(s.order, s.info, info);
    InsertSorted(s.order, info, a);
  }

  /** An erase in a state with the invariant erases the element it names. */
  lemma EraseFound(s: State, info: map<Id, Rec>, a: Id)
    requires Inv(s) && a in s.order && Sorted(s.order, info)
    ensures var it := Find(s.order, info, a);
            it.Some? && s.order[it.value] == a &&
            var rest := EraseAt(s.order, it.value);
            Sorted(rest, info) && (forall x :: x in rest <==> x in s.order && x != a)
  {
    FindMember(s.order, info, a);
    EraseSorted(s.order, info, Find(s.order, info, a).value);
  }

  lemma CancelInv(s: State, a: Id)
    requires Inv(s) && a in s.info
    ensures Inv(DoCancel(s, a).0)
    ensures s.info[a].cb.Some? ==> Find(s.order, s.info[a := s.info[a].(cb := None)], a).Some?
    ensures var (s', out) := DoCancel(s, a);
            out.ok == s.info[a].cb.Some? && (out.ok ==> a !in s'.order)
  {
    hide Find, EraseAt, Sorted;
    if s.info[a].cb.Some? {
      var info := s.info[a := s.info[a].(cb := None)];
      SortedFrame(s.order, s.info, info);
      EraseFound(s, info, a);
    }
  }

  /** Taking an element out, changing its deadline and putting it back. */
  lemma Reinserted(s: State, a: Id, r: Rec)
    requires Inv(s) && a in s.order
    ensures Find(s.order, s.info, a).Some?
    ensures var info := s.info[a := r];
            var rest := EraseAt(s.order, Find(s.order, s.info, a).value);
            var order := Insert(rest, info, a).0;
            a !in rest && Sorted(rest, info) && Sorted(order, info) &&
            (forall x :: x in rest <==> x in s.order && x != a) &&
            (forall x :: x in order <==> x in s.order)
  {
    hide Insert, Sorted;
    EraseFound(s, s.info, a);
    var info := s.info[a := r];
    var rest := EraseAt(s.order, Find(s.order, s.info, a).value);
    hide Find, EraseAt;
    SortedFrame(rest, s.info, info);
    InsertSorted(rest, info, a);
  }

  lemma RefreshInv(s: State, a: Id, now: nat)
    requires Inv(s) && a in s.info
    ensures Inv(DoRefresh(s, a, now).0)
  {
    hide Find, EraseAt, Insert, Sorted, Deadline;
    FindMember(s.order, s.info, a);
    if a in s.order {
      Reinserted(s, a, s.info[a].(next := Deadline(now, s.info[a].ms)));
    }
  }

  lemma ResetInv(s: State, a: Id, ms: nat, fromNow: bool, now: nat)
    requires Inv(s) && a in s.info
    ensures Inv(DoReset(s, a, ms, fromNow, now).0)
  {
    hide Find, EraseAt, Insert, Sorted, Deadline;
    var r := s.info[a];
    FindMember(s.order, s.info, a);
    if a in s.order {
      var start := if fromNow then now else (r.next - r.ms) % U64;
      Reinserted(s, a, r.(ms := ms, next := Deadline(start, ms)));
    }
  }

  // ----------------------------------------------------------------- expiry

  ghost predicate Distinct(xs: seq<Id>) {
    forall i, j :: 0 <= i < j < |xs| ==> xs[i] != xs[j]
  }

  /** The invariant while the timers `out` are being dealt with. */
  ghost predicate InvExcept(s: State, out: seq<Id>) {
    && Sorted(s.order, s.info)
    && Distinct(out)
    && (forall a :: a in out ==> a in s.info && a !in s.order && (s.info[a].cb.Some? <==> a in s.armed))
    && (forall a :: a in s.order ==> a in s.info)
    && (forall a :: a in s.armed ==> a in s.info)
    && (forall a :: a in s.info && s.info[a].cb.Some? && a !in out ==> a in s.order && a in s.armed)
    && (forall a :: a in s.order && a in s.armed ==> s.info[a].cb.Some?)
  }

  /** What dealing with the expired timers does to each record and to the set. */
  ghost predicate Rearmed(s: State, out: seq<Id>, now: nat, s': State) {
    && s'.info.Keys == s.info.Keys && s'.armed == s.armed
    && s'.tickled == s.tickled && s'.previous == s.previous
    && (forall a :: a in s.info && a !in out ==> s'.info[a] == s.info[a] && (a in s'.order <==> a in s.order))
    && (forall a :: a in out && a in s.info ==>
          if s.info[a].recurring
          then s'.info[a] == s.info[a].(next := Deadline(now, s.info[a].ms)) && a in s'.order
          else s'.info[a] == s.info[a].(cb := None) && a !in s'.order)
  }

  lemma RearmOneInv(s: State, out: seq<Id>, now: nat)
    requires InvExcept(s, out) && out != []
    ensures InvExcept(RearmOne(s, out[0], now), out[1..])
    ensures Rearmed(s, [out[0]], now, RearmOne(s, out[0], now))
  {
    hide Insert, Sorted, Deadline, InvExcept, Rearmed;
    FirstOut(s, out);
    if s.info[out[0]].recurring {
      RearmRecurring(s, out, now);
    } else {
      RearmOneShot(s, out, now);
    }
  }

  lemma FirstOut(s: State, out: seq<Id>)
    requires InvExcept(s, out) && out != []
    ensures out[0] in s.info && out[0] !in s.order && Distinct(out[1..]) && out[0] !in out[1..]
    ensures forall x :: x in out <==> x == out[0] || x in out[1..]
  {
    assert out == [out[0]] + out[1..];
  }

  lemma RearmRecurring(s: State, out: seq<Id>, now: nat)
    requires InvExcept(s, out) && out != [] && At(s.info, out[0]).recurring
    ensures InvExcept(RearmOne(s, out[0], now), out[1..])
    ensures Rearmed(s, [out[0]], now, RearmOne(s, out[0], now))
  {
    hide Insert, Sorted, Deadline, Distinct;
    FirstOut(s, out);
    var a := out[0];
    var info := s.info[a := s.info[a].(next := Deadline(now, s.info[a].ms))];
    SortedFrame(s.order, s.info, info);
    InsertSorted(s.order, info, a);
  }

  lemma RearmOneShot(s: State, out: seq<Id>, now: nat)
    requires InvExcept(s, out) && out != [] && !At(s.info, out[0]).recurring
    ensures InvExcept(RearmOne(s, out[0], now), out[1..])
    ensures Rearmed(s, [out[0]], now, RearmOne(s, out[0], now))
  {
    hide Insert, Sorted, Deadline, Distinct;
    FirstOut(s, out);
    var a := out[0];
    SortedFrame(s.order, s.info, s.info[a := s.info[a].(cb := None)]);
  }

  lemma RearmedCompose(s: State, a: Id, rest: seq<Id>, now: nat, mid: State, s': State)
    requires Rearmed(s, [a], now, mid) && Rearmed(mid, rest, now, s') && a !in rest
    ensures Rearmed(s, [a] + rest, now, s')
  {
  }

  lemma RearmedNone(s: State, now: nat)
    ensures Rearmed(s, [], now, s)
  {
  }

  lemma {:induction false} RearmInv(s: State, out: seq<Id>, now: nat)
    requires InvExcept(s, out)
    ensures InvExcept(Rearm(s, out, now), []) && Rearmed(s, out, now, Rearm(s, out, now))
    decreases |out|
  {
    hide InvExcept, Rearmed, RearmOne;
    if out == [] {
      RearmedNone(s, now);
    } else {
      FirstOut(s, out);
      RearmOneInv(s, out, now);
      var mid := RearmOne(s, out[0], now);
      RearmInv(mid, out[1..], now);
      assert out == [out[0]] + out[1..];
      RearmedCompose(s, out[0], out[1..], now, mid, Rearm(s, out, now));
    }
  }

  lemma {:induction false} SkipEqualSplits(order: seq<Id>, info: map<Id, Rec>, i: nat, now: nat)
    requires i <= |order|
    ensures var k := SkipEqual(order, info, i, now);
            (forall j :: i <= j < k ==> At(info, order[j]).next == now) &&
            (k < |order| ==> At(info, order[k]).next != now)
    decreases |order| - i
  {
    if i < |order| && At(info, order[i]).next == now {
      SkipEqualSplits(order, info, i + 1, now);
    }
  }

  /** Whatever the address of the probe, exactly the deadlines up to now are
      taken, all of them after a rollover. */
  lemma ExpiredSplits(s: State, now: nat, probe: Id)
    requires Sorted(s.order, s.info)
    ensures var k := ExpiredCount(s, now, probe);
            if Rollover(s.previous, now) then k == |s.order|
            else (forall j :: 0 <= j < k ==> At(s.info, s.order[j]).next <= now) &&
                 (forall j :: k <= j < |s.order| ==> At(s.info, s.order[j]).next > now)
  {
    if !Rollover(s.previous, now) {
      var i := LowerBound(s.order, s.info, Key(now, probe));
      LowerBoundSplits(s.order, s.info, Key(now, probe));
      SkipEqualSplits(s.order, s.info, i, now);
      var k := ExpiredCount(s, now, probe);
      forall j | k <= j < |s.order|
        ensures At(s.info, s.order[j]).next > now
      {
        assert !Less(KeyOf(s.info, s.order[k]), Key(now, probe));
        if k < j {
          assert Less(KeyOf(s.info, s.order[k]), KeyOf(s.info, s.order[j]));
        }
      }
    }
  }

  lemma SplitExcept(s: State, k: nat, now: nat)
    requires Inv(s) && k <= |s.order|
    ensures InvExcept(s.(order := s.order[k..], previous := now), s.order[..k])
  {
    assert s.order == s.order[..k] + s.order[k..];
    forall i, j | 0 <= i < j < |s.order|
      ensures s.order[i] != s.order[j]
    {
      assert Less(KeyOf(s.info, s.order[i]), KeyOf(s.info, s.order[j]));
    }
  }

  /** The early return is no special case. */
  lemma ListExpiredForm(s: State, now: nat, probe: Id)
    requires Inv(s) && s.order != []
    ensures var k := ExpiredCount(s, now, probe);
            DoListExpiredCb(s, now, probe) ==
              (Rearm(s.(order := s.order[k..], previous := now), s.order[..k], now), DONE.(fired := s.order[..k]))
  {
    hide ExpiredCount, Rollover, Sorted;
    FrontDecides(s, now, probe);
    assert s.order[0..] == s.order;
  }

  /** A batch of expired timers: which they are, in which order, and what becomes
      of every timer. */
  lemma ListExpired(s: State, now: nat, probe: Id)
    requires Inv(s)
    ensures var (s', out) := DoListExpiredCb(s, now, probe);
            Inv(s') && Sorted(out.fired, s.info) &&
            (forall a :: a in out.fired <==>
               a in s.order && (Rollover(s.previous, now) || s.info[a].next <= now)) &&
            Rearmed(s.(previous := s'.previous), out.fired, now, s')
  {
    hide DoListExpiredCb, Rearm, ExpiredCount, Deadline, Rollover, Sorted;
    if s.order == [] {
      NothingToExpire(s, now, probe);
    } else {
      var k := ExpiredCount(s, now, probe);
      ListExpiredForm(s, now, probe);
      ExpiredSplits(s, now, probe);
      SplitExcept(s, k, now);
      SplitMembers(s, now, k);
      RearmInv(s.(order := s.order[k..], previous := now), s.order[..k], now);
      RearmedWhole(s, now, k, DoListExpiredCb(s, now, probe).0);
    }
  }

  lemma NothingToExpire(s: State, now: nat, probe: Id)
    requires Inv(s) && s.order == []
    ensures DoListExpiredCb(s, now, probe) == (s, DONE)
    ensures Sorted([], s.info) && Rearmed(s, [], now, s)
  {
  }

  lemma RearmedWhole(s: State, now: nat, k: nat, s': State)
    requires Inv(s) && k <= |s.order|
    requires Rearmed(s.(order := s.order[k..], previous := now), s.order[..k], now, s')
    ensures Rearmed(s.(previous := s'.previous), s.order[..k], now, s')
  {
    hide Sorted, Deadline;
    SplitMembers(s, now, k);
  }

  /** Nothing due is left in the set exactly when every recurring timer that
      fires gets a deadline in the future: a positive period that does not wrap. */
  lemma NothingDueLeft(s: State, now: nat, probe: Id)
    requires Inv(s) && !Rollover(s.previous, now)
    ensures var (s', out) := DoListExpiredCb(s, now, probe);
            (forall a :: a in s'.order ==> At(s'.info, a).next > now) <==>
            (forall a :: a in out.fired && At(s.info, a).recurring ==> Deadline(now, At(s.info, a).ms) > now)
  {
    hide DoListExpiredCb, Deadline, Rollover, Sorted;
    ListExpired(s, now, probe);
    var (s', out) := DoListExpiredCb(s, now, probe);
    forall a | a in out.fired && At(s.info, a).recurring
      ensures a in s'.order && At(s'.info, a).next == Deadline(now, At(s.info, a).ms)
    {
    }
  }

  /** When the front is not due, nothing is. */
  lemma FrontDecides(s: State, now: nat, probe: Id)
    requires Sorted(s.order, s.info) && s.order != []
    ensures !Rollover(s.previous, now) && At(s.info, s.order[0]).next > now ==> ExpiredCount(s, now, probe) == 0
  {
    ExpiredSplits(s, now, probe);
  }

  lemma SplitMembers(s: State, now: nat, k: nat)
    requires Inv(s) && k <= |s.order|
    ensures Sorted(s.order[..k], s.info)
    ensures forall a :: a in s.order <==> a in s.order[..k] || a in s.order[k..]
    ensures forall a :: a in s.order[..k] ==> a !in s.order[k..]
  {
    assert s.order == s.order[..k] + s.order[k..];
    SplitExcept(s, k, now);
  }

  // ------------------------------------------------------------------- runs

  datatype Call = Call(op: Op, now: nat)

  function Run(s: State, calls: seq<Call>): State
    decreases |calls|
  {
    if calls == [] then s else Run(Step(s, calls[0].op, calls[0].now).0, calls[1..])
  }

  function Outs(s: State, calls: seq<Call>): seq<Out>
    decreases |calls|
  {
    if calls == [] then []
    else
      var (s', out) := Step(s, calls[0].op, calls[0].now);
      [out] + Outs(s', calls[1..])
  }

  ghost predicate LegalRun(s: State, calls: seq<Call>)
    decreases |calls|
  {
    calls != [] ==>
      Legal(s, calls[0].op) && LegalRun(Step(s, calls[0].op, calls[0].now).0, calls[1..])
  }

  lemma StepInv(s: State, op: Op, now: nat)
    requires Inv(s) && Legal(s, op)
    ensures Inv(Step(s, op, now).0)
  {
    hide Inv, DoAdd, DoCancel, DoRefresh, DoReset, DoListExpiredCb, Rearmed;
    match op
    case Add(a, ms, cb, recurring) => AddInv(s, a, ms, cb, recurring, now);
    case Cancel(a) => CancelInv(s, a);
    case Refresh(a) => RefreshInv(s, a, now);
    case Reset(a, ms, fromNow) => ResetInv(s, a, ms, fromNow, now);
    case GetNextTimer => FlagInv(s, false);
    case ListExpiredCb(probe) => ListExpired(s, now, probe);
  }

  lemma FlagInv(s: State, tickled: bool)
    requires Inv(s)
    ensures Inv(s.(tickled := tickled))
  {
  }

  /** Every run, under any clock, keeps the timers and the set in agreement. */
  lemma {:induction false} RunInv(s: State, calls: seq<Call>)
    requires Inv(s) && LegalRun(s, calls)
    ensures Inv(Run(s, calls))
    decreases |calls|
  {
    hide Inv, Step, Legal;
    if calls != [] {
      StepInv(s, calls[0].op, calls[0].now);
      RunInv(Step(s, calls[0].op, calls[0].now).0, calls[1..]);
    }
  }

  /** What one call can do to a timer that exists: its callback goes only by a
      cancel or by the delivery of a one-shot timer. */
  lemma StepOnTimer(s: State, op: Op, now: nat, a: Id)
    requires Inv(s) && Legal(s, op) && a in s.info
    ensures var (s', out) := Step(s, op, now);
            a in s'.info && s'.info[a].recurring == s.info[a].recurring &&
            (a in s'.armed <==> a in s.armed) &&
            (a in out.fired ==> a in s.order) &&
            s'.info[a].cb == if op == Cancel(a) || (a in out.fired && !s.info[a].recurring) then None else s.info[a].cb
  {
    hide Sorted, Rollover, Deadline, Insert, Find, EraseAt, DoListExpiredCb;
    if op.ListExpiredCb? {
      ListExpired(s, now, op.probe);
    }
  }

  /** Created with a callback and without one now: cancelled, or delivered for
      good. */
  predicate Dead(s: State, a: Id) {
    a in s.info && a in s.armed && s.info[a].cb.None?
  }

  /** A dead timer stays dead, is never delivered, and refuses to be cancelled,
      refreshed or reset from now. */
  lemma DeadStep(s: State, op: Op, now: nat, a: Id)
    requires Inv(s) && Legal(s, op) && Dead(s, a)
    ensures var (s', out) := Step(s, op, now);
            Dead(s', a) && a !in out.fired &&
            (op == Cancel(a) || op == Refresh(a) ==> !out.ok) &&
            (op.Reset? && op.a == a && (op.fromNow || op.ms != s.info[a].ms) ==> !out.ok)
  {
    StepOnTimer(s, op, now, a);
    hide Sorted, Rollover, Deadline, Insert, Find, EraseAt, DoListExpiredCb;
  }

  /** In how many of the batches a timer was delivered. */
  function Deliveries(outs: seq<Out>, a: Id): nat {
    if outs == [] then 0 else (if a in outs[0].fired then 1 else 0) + Deliveries(outs[1..], a)
  }

  lemma {:induction false} DeadForever(s: State, calls: seq<Call>, a: Id)
    requires Inv(s) && LegalRun(s, calls) && Dead(s, a)
    ensures Dead(Run(s, calls), a) && Deliveries(Outs(s, calls), a) == 0
    decreases |calls|
  {
    hide Inv, Step, Legal, Dead;
    if calls != [] {
      StepInv(s, calls[0].op, calls[0].now);
      DeadStep(s, calls[0].op, calls[0].now, a);
      var s' := Step(s, calls[0].op, calls[0].now).0;
      DeadForever(s', calls[1..], a);
      assert Outs(s, calls)[1..] == Outs(s', calls[1..]);
    }
  }

  /** A cancel that succeeds is final. */
  lemma CancelledForever(s: State, a: Id, now: nat, calls: seq<Call>)
    requires Inv(s) && a in s.info && LegalRun(Step(s, Cancel(a), now).0, calls)
    ensures var (s', out) := Step(s, Cancel(a), now);
            out.ok ==> Dead(Run(s', calls), a) && Deliveries(Outs(s', calls), a) == 0
  {
    hide Inv, Deadline, Find, EraseAt, Sorted;
    StepInv(s, Cancel(a), now);
    StepOnTimer(s, Cancel(a), now, a);
    CancelInv(s, a);
    var (s', out) := Step(s, Cancel(a), now);
    if out.ok {
      ArmedIfCallback(s, a);
      DeadForever(s', calls, a);
    }
  }

  lemma ArmedIfCallback(s: State, a: Id)
    requires Inv(s) && a in s.info && s.info[a].cb.Some?
    ensures a in s.armed
  {
  }

  /** Over any run a one-shot callback is delivered at most once, and a timer that
      was delivered is dead at the end. */
  lemma {:induction false} OneShotOnce(s: State, calls: seq<Call>, a: Id)
    requires Inv(s) && LegalRun(s, calls) && a in s.armed && a in s.info && !s.info[a].recurring
    ensures Deliveries(Outs(s, calls), a) <= 1
    ensures Deliveries(Outs(s, calls), a) == 1 ==> Dead(Run(s, calls), a)
    decreases |calls|
  {
    hide Inv, Step, Legal;
    if calls != [] {
      StepInv(s, calls[0].op, calls[0].now);
      StepOnTimer(s, calls[0].op, calls[0].now, a);
      var (s', out) := Step(s, calls[0].op, calls[0].now);
      assert Outs(s, calls)[1..] == Outs(s', calls[1..]);
      if a in out.fired {
        DeadForever(s', calls[1..], a);
      } else {
        OneShotOnce(s', calls[1..], a);
      }
    }
  }

  // ------------------------------------------------------- who is in the set

  /** The calls that anyone may make; the others are the poller's. */
  predicate ByCaller(op: Op) {
    !op.GetNextTimer? && !op.ListExpiredCb?
  }

  lemma MemberStep(s: State, op: Op, now: nat, a: Id)
    requires Inv(s) && Legal(s, op) && ByCaller(op)
    ensures var s' := Step(s, op, now).0;
            (a in s'.order <==> (op.Add? && op.a == a) || (a in s.order && !(op == Cancel(a) && a in s.armed))) &&
            (a in s'.armed <==> a in s.armed || (op.Add? && op.a == a && op.cb.Some?))
  {
    hide Sorted, Deadline, Insert, Find, EraseAt;
    match op
    case Add(b, ms, cb, recurring) =>
      var info := s.info[b := Rec(recurring, ms, Deadline(now, ms), cb)];
      SortedFrame(s.order, s.info, info);
      InsertSorted(s.order, info, b);
    case Cancel(b) =>
      if s.info[b].cb.Some? {
        var info := s.info[b := s.info[b].(cb := None)];
        SortedFrame(s.order, s.info, info);
        EraseFound(s, info, b);
      }
    case Refresh(b) => MemberMoved(s, b, s.info[b].(next := Deadline(now, s.info[b].ms)), a);
    case Reset(b, ms, fromNow) =>
      var start := if fromNow then now else (s.info[b].next - s.info[b].ms) % U64;
      MemberMoved(s, b, s.info[b].(ms := ms, next := Deadline(start, ms)), a);
  }

  lemma MemberMoved(s: State, b: Id, r: Rec, a: Id)
    requires Inv(s) && b in s.info
    ensures var it := Find(s.order, s.info, b);
            it.Some? ==> (a in Insert(EraseAt(s.order, it.value), s.info[b := r], b).0 <==> a in s.order)
  {
    hide Sorted, Find, EraseAt, Insert;
    FindMember(s.order, s.info, b);
    if b in s.order {
      Reinserted(s, b, r);
    }
  }

  ghost predicate CancelledIn(calls: seq<Call>, a: Id) {
    exists i :: 0 <= i < |calls| && calls[i].op == Cancel(a)
  }

  /** The call adds a timer that is not cancelled after it; one without a callback
      never can be. */
  ghost predicate Stays(calls: seq<Call>, i: nat)
    requires i < |calls|
  {
    calls[i].op.Add? && (calls[i].op.cb.None? || !CancelledIn(calls[i + 1..], calls[i].op.a))
  }

  ghost predicate AddedToStay(calls: seq<Call>, a: Id) {
    exists i :: 0 <= i < |calls| && calls[i].op.Add? && calls[i].op.a == a && Stays(calls, i)
  }

  lemma CancelledStep(calls: seq<Call>, a: Id)
    requires calls != []
    ensures CancelledIn(calls, a) <==> calls[0].op == Cancel(a) || CancelledIn(calls[1..], a)
  {
    if CancelledIn(calls, a) {
      var i :| 0 <= i < |calls| && calls[i].op == Cancel(a);
      assert i > 0 ==> calls[1..][i - 1] == calls[i];
    }
    if CancelledIn(calls[1..], a) {
      var i :| 0 <= i < |calls[1..]| && calls[1..][i].op == Cancel(a);
      assert calls[i + 1] == calls[1..][i];
    }
  }

  lemma AddedStep(calls: seq<Call>, a: Id)
    requires calls != []
    ensures AddedToStay(calls, a) <==>
              (calls[0].op.Add? && calls[0].op.a == a && Stays(calls, 0)) || AddedToStay(calls[1..], a)
  {
    forall i | 0 < i < |calls|
      ensures calls[1..][i - 1] == calls[i] && Stays(calls[1..], i - 1) == Stays(calls, i)
    {
      assert calls[1..][i..] == calls[i + 1..];
    }
    if AddedToStay(calls, a) {
      var i :| 0 <= i < |calls| && calls[i].op.Add? && calls[i].op.a == a && Stays(calls, i);
      assert i > 0 ==> calls[1..][i - 1].op.a == a && Stays(calls[1..], i - 1);
    }
    if AddedToStay(calls[1..], a) {
      var i :| 0 <= i < |calls[1..]| && calls[1..][i].op.Add? && calls[1..][i].op.a == a && Stays(calls[1..], i);
      assert calls[i + 1] == calls[1..][i] && Stays(calls, i + 1);
    }
  }

  ghost predicate CallersRun(calls: seq<Call>) {
    forall i :: 0 <= i < |calls| ==> ByCaller(calls[i].op)
  }

  lemma {:induction false} MemberRun(s: State, calls: seq<Call>, a: Id)
    requires Inv(s) && LegalRun(s, calls) && CallersRun(calls)
    ensures a in Run(s, calls).order <==>
              (a in s.order && !(a in s.armed && CancelledIn(calls, a))) || AddedToStay(calls, a)
    decreases |calls|
  {
    hide Inv, Step, Legal, CancelledIn, AddedToStay;
    if calls == [] {
      NothingIn(a);
    } else {
      var op, now := calls[0].op, calls[0].now;
      StepInv(s, op, now);
      MemberStep(s, op, now, a);
      MemberRun(Step(s, op, now).0, calls[1..], a);
      CancelledStep(calls, a);
      AddedStep(calls, a);
      if op.Add? && op.a == a {
        ArmedInSet(s, op, a);
      }
    }
  }

  lemma NothingIn(a: Id)
    ensures !CancelledIn([], a) && !AddedToStay([], a)
  {
  }

  lemma ArmedInSet(s: State, op: Op, a: Id)
    requires Inv(s) && Legal(s, op) && op.Add? && op.a == a
    ensures a !in s.order && a !in s.armed
  {
  }

  /** Starting from an empty set, a run of callers' calls leaves it empty exactly
      when every timer it adds has a callback and is cancelled later. */
  lemma EmptyAfter(s: State, calls: seq<Call>)
    requires Inv(s) && s.order == [] && LegalRun(s, calls) && CallersRun(calls)
    ensures Run(s, calls).order == [] <==> forall i :: 0 <= i < |calls| ==> !Stays(calls, i)
  {
    hide Inv, LegalRun, Run, Stays;
    var order := Run(s, calls).order;
    if order != [] {
      var a := order[0];
      MemberRun(s, calls, a);
      assert AddedToStay(calls, a);
    }
    forall i | 0 <= i < |calls| && Stays(calls, i)
      ensures order != []
    {
      IsAdd(calls, i);
      MemberRun(s, calls, calls[i].op.a);
      assert AddedToStay(calls, calls[i].op.a);
    }
  }

  lemma IsAdd(calls: seq<Call>, i: nat)
    requires i < |calls| && Stays(calls, i)
    ensures calls[i].op.Add?
  {
  }

  // ---------------------------------------------------------- lost wakeups

  /** The poller is being woken, or no deadline is earlier than the front `seen`
      that it was last told of; None is an empty set. */
  ghost predicate Awake(s: State, seen: Option<nat>) {
    s.tickled || forall a :: a in s.order ==> seen.Some? && At(s.info, a).next >= seen.value
  }

  function Front(s: State): Option<nat> {
    if s.order == [] then None else Some(At(s.info, s.order[0]).next)
  }

  /** The deadline the latest getNextTimer saw. */
  function SeenAfter(s: State, seen: Option<nat>, op: Op): Option<nat> {
    if op.GetNextTimer? then Front(s) else seen
  }

  lemma DeadlineSmall(start: nat, ms: nat)
    requires start + ms < U64
    ensures Deadline(start, ms) == start + ms
  {
  }

  lemma FrontIsLeast(s: State)
    requires Inv(s)
    ensures Awake(s.(tickled := false), Front(s))
  {
    forall a | a in s.order
      ensures At(s.info, a).next >= Front(s).value
    {
      var k :| 0 <= k < |s.order| && s.order[k] == a;
      if k > 0 {
        assert Less(KeyOf(s.info, s.order[0]), KeyOf(s.info, s.order[k]));
      }
    }
  }

  /** An insertion that does not wake the poller is not before the front. */
  lemma InsertAwake(s: State, a: Id, seen: Option<nat>)
    requires Sorted(s.order, s.info) && a !in s.order && Awake(s, seen)
    ensures Awake(InsertAndTickle(s, a).0, seen)
  {
    var (after, i) := Insert(s.order, s.info, a);
    InsertSorted(s.order, s.info, a);
    if !s.tickled && i > 0 {
      assert Less(KeyOf(s.info, after[0]), KeyOf(s.info, after[i]));
      assert after[0] in s.order;
    }
  }

  lemma AddAwake(s: State, seen: Option<nat>, a: Id, ms: nat, cb: Option<Callback>, recurring: bool, now: nat)
    requires Inv(s) && a !in s.info && Awake(s, seen)
    ensures Awake(DoAdd(s, a, ms, cb, recurring, now).0, seen)
  {
    hide Insert, Sorted, Deadline;
    var info := s.info[a := Rec(recurring, ms, Deadline(now, ms), cb)];
    SortedFrame(s.order, s.info, info);
    InsertAwake(s.(info := info, armed := if cb.Some? then s.armed + {a} else s.armed), a, seen);
  }

  lemma CancelAwake(s: State, seen: Option<nat>, a: Id)
    requires Inv(s) && a in s.info && Awake(s, seen)
    ensures Awake(DoCancel(s, a).0, seen)
  {
    hide Find, EraseAt, Sorted;
    if s.info[a].cb.Some? {
      var info := s.info[a := s.info[a].(cb := None)];
      SortedFrame(s.order, s.info, info);
      EraseFound(s, info, a);
    }
  }

  /** A deadline set without waking the poller is no earlier than the one it was
      told. */
  predicate NotBefore(seen: Option<nat>, deadline: nat) {
    seen.Some? && deadline >= seen.value
  }

  /** What a step must keep to: only a refresh and a re-insertion set deadlines
      without waking the poller. */
  predicate Meets(s: State, seen: Option<nat>, op: Op, now: nat) {
    match op
    case Refresh(a) => s.tickled || At(s.info, a).cb.None? || NotBefore(seen, Deadline(now, At(s.info, a).ms))
    case ListExpiredCb(_) =>
      s.tickled ||
      forall a :: a in s.order && At(s.info, a).recurring && (Rollover(s.previous, now) || At(s.info, a).next <= now) ==>
        NotBefore(seen, Deadline(now, At(s.info, a).ms))
    case _ => true
  }

  lemma RefreshAwake(s: State, seen: Option<nat>, a: Id, now: nat)
    requires Inv(s) && a in s.info && Awake(s, seen)
    ensures Awake(DoRefresh(s, a, now).0, seen) <==> Meets(s, seen, Refresh(a), now)
  {
    hide Find, EraseAt, Insert, Sorted, Deadline;
    var r := s.info[a];
    FindMember(s.order, s.info, a);
    if a in s.order {
      Reinserted(s, a, r.(next := Deadline(now, r.ms)));
    }
    if r.cb.Some? {
      var s' := DoRefresh(s, a, now).0;
      assert a in s'.order && At(s'.info, a).next == Deadline(now, r.ms);
    }
  }

  lemma ResetAwake(s: State, seen: Option<nat>, a: Id, ms: nat, fromNow: bool, now: nat)
    requires Inv(s) && a in s.info && Awake(s, seen)
    ensures Awake(DoReset(s, a, ms, fromNow, now).0, seen)
  {
    hide Find, EraseAt, Insert, Sorted, Deadline;
    var r := s.info[a];
    FindMember(s.order, s.info, a);
    if a in s.order {
      var start := if fromNow then now else (r.next - r.ms) % U64;
      Reinserted(s, a, r.(ms := ms, next := Deadline(start, ms)));
      var info := s.info[a := r.(ms := ms, next := Deadline(start, ms))];
      InsertAwake(s.(info := info, order := EraseAt(s.order, Find(s.order, s.info, a).value)), a, seen);
    }
  }

  lemma ExpireAwake(s: State, seen: Option<nat>, now: nat, probe: Id)
    requires Inv(s) && Awake(s, seen)
    ensures Awake(DoListExpiredCb(s, now, probe).0, seen) <==> Meets(s, seen, ListExpiredCb(probe), now)
  {
    hide DoListExpiredCb, Deadline, Rollover, Sorted;
    ListExpired(s, now, probe);
    var (s', out) := DoListExpiredCb(s, now, probe);
    forall a | a in out.fired && At(s.info, a).recurring
      ensures a in s'.order && At(s'.info, a).next == Deadline(now, At(s.info, a).ms)
    {
    }
    forall a | a in s'.order && a !in out.fired
      ensures a in s.order && At(s'.info, a).next == At(s.info, a).next
    {
    }
  }

  /** A step from a state where the poller is awake loses the wakeup exactly when
      it sets a deadline, without waking it, before the one it was told. */
  lemma AwakeStep(s: State, seen: Option<nat>, op: Op, now: nat)
    requires Inv(s) && Legal(s, op) && Awake(s, seen)
    ensures Awake(Step(s, op, now).0, SeenAfter(s, seen, op)) <==> Meets(s, seen, op, now)
  {
    hide Inv, Awake, DoAdd, DoCancel, DoRefresh, DoReset, DoListExpiredCb;
    match op
    case Add(a, ms, cb, recurring) => AddAwake(s, seen, a, ms, cb, recurring, now);
    case Cancel(a) => CancelAwake(s, seen, a);
    case Refresh(a) => RefreshAwake(s, seen, a, now);
    case Reset(a, ms, fromNow) => ResetAwake(s, seen, a, ms, fromNow, now);
    case GetNextTimer => FrontIsLeast(s);
    case ListExpiredCb(probe) => ExpireAwake(s, seen, now, probe);
  }

  /** A refresh loses the wakeup exactly when it moves the deadline before the one
      the poller was told and the poller is not being woken. */
  lemma RefreshExact(s: State, seen: nat, a: Id, now: nat)
    requires Inv(s) && a in s.order && a in s.armed && Awake(s, Some(seen))
    ensures Awake(DoRefresh(s, a, now).0, Some(seen)) <==> s.tickled || Deadline(now, s.info[a].ms) >= seen
  {
    hide DoRefresh, Deadline, Sorted, Awake;
    RefreshAwake(s, Some(seen), a, now);
  }

  /** The step moves no deadline back without waking the poller. */
  predicate Steady(s: State, op: Op, now: nat) {
    match op
    case Refresh(a) => At(s.info, a).next <= Deadline(now, At(s.info, a).ms)
    case ListExpiredCb(_) =>
      forall a :: a in s.order && At(s.info, a).recurring && (Rollover(s.previous, now) || At(s.info, a).next <= now) ==>
        At(s.info, a).next <= Deadline(now, At(s.info, a).ms)
    case _ => true
  }

  lemma SteadyMeets(s: State, seen: Option<nat>, op: Op, now: nat)
    requires Inv(s) && Legal(s, op) && Steady(s, op, now) && Awake(s, seen)
    ensures Meets(s, seen, op, now)
  {
    hide Deadline, Rollover, Sorted;
  }

  function Seen(s: State, seen: Option<nat>, calls: seq<Call>): Option<nat>
    decreases |calls|
  {
    if calls == [] then seen
    else Seen(Step(s, calls[0].op, calls[0].now).0, SeenAfter(s, seen, calls[0].op), calls[1..])
  }

  /** The poller is awake in every state of the run. */
  ghost predicate AlwaysAwake(s: State, seen: Option<nat>, calls: seq<Call>)
    decreases |calls|
  {
    Awake(s, seen) &&
    (calls != [] ==>
       AlwaysAwake(Step(s, calls[0].op, calls[0].now).0, SeenAfter(s, seen, calls[0].op), calls[1..]))
  }

  ghost predicate MeetsRun(s: State, seen: Option<nat>, calls: seq<Call>)
    decreases |calls|
  {
    calls != [] ==>
      Meets(s, seen, calls[0].op, calls[0].now) &&
      MeetsRun(Step(s, calls[0].op, calls[0].now).0, SeenAfter(s, seen, calls[0].op), calls[1..])
  }

  /** No state of a run loses a wakeup exactly when no step sets a deadline, without
      waking the poller, before the one it was told. */
  lemma {:induction false} RunAwake(s: State, seen: Option<nat>, calls: seq<Call>)
    requires Inv(s) && LegalRun(s, calls) && Awake(s, seen)
    ensures AlwaysAwake(s, seen, calls) <==> MeetsRun(s, seen, calls)
    decreases |calls|
  {
    hide Inv, Step, Legal, Awake, SeenAfter, Meets;
    if calls != [] {
      var op, now := calls[0].op, calls[0].now;
      StepInv(s, op, now);
      AwakeStep(s, seen, op, now);
      if Meets(s, seen, op, now) {
        RunAwake(Step(s, op, now).0, SeenAfter(s, seen, op), calls[1..]);
      } else {
        AsleepNow(Step(s, op, now).0, SeenAfter(s, seen, op), calls[1..]);
      }
    }
  }

  lemma AsleepNow(s: State, seen: Option<nat>, calls: seq<Call>)
    requires !Awake(s, seen)
    ensures !AlwaysAwake(s, seen, calls)
  {
  }

  lemma {:induction false} AwakeAtEnd(s: State, seen: Option<nat>, calls: seq<Call>)
    requires AlwaysAwake(s, seen, calls)
    ensures Awake(Run(s, calls), Seen(s, seen, calls))
    decreases |calls|
  {
    hide Step, Awake, SeenAfter;
    if calls != [] {
      AwakeAtEnd(Step(s, calls[0].op, calls[0].now).0, SeenAfter(s, seen, calls[0].op), calls[1..]);
    }
  }

  /** A timer is added for 100 ms, the poller goes to sleep for it, and the clock is
      set back by a second before the timer is refreshed: it is due long before the
      poller wakes. */
  lemma LostWakeup()
    ensures var s := State(map[], [], false, 10000, {});
            var calls := [Call(Add(0, 100, Some(0), false), 10000), Call(GetNextTimer, 10000), Call(Refresh(0), 9000)];
            LegalRun(s, calls) && !AlwaysAwake(s, None, calls) &&
            var end := Run(s, calls);
            !end.tickled && Seen(s, None, calls) == Some(10100) && end.order == [0] && At(end.info, 0).next == 9100
  {
    var s := State(map[], [], false, 10000, {});
    var a, b, c := Call(Add(0, 100, Some(0), false), 10000), Call(GetNextTimer, 10000), Call(Refresh(0), 9000);
    var s1 := State(map[0 := Rec(false, 100, 10100, Some(0))], [0], true, 10000, {0});
    var s2 := s1.(tickled := false);
    var s3 := s2.(info := map[0 := Rec(false, 100, 9100, Some(0))]);
    FirstTimer(10100);
    FirstTimer(9100);
    assert Step(s, a.op, a.now).0 == s1;
    assert Step(s1, b.op, b.now).0 == s2;
    assert Step(s2, c.op, c.now).0 == s3;
    assert [a, b, c][1..] == [b, c] && [b, c][1..] == [c] && [c][1..] == [];
    hide Step;
    assert !Awake(s3, Some(10100)) by { assert 0 in s3.order; }
  }

  lemma FirstTimer(next: nat)
    ensures var info := map[0 := Rec(false, 100, next, Some(0))];
            Insert([], info, 0) == ([0], 0) && Find([0], info, 0) == Some(0) && EraseAt([0], 0) == []
  {
    InsertFirst(map[0 := Rec(false, 100, next, Some(0))], 0);
  }

  lemma InsertFirst(info: map<Id, Rec>, a: Id)
    ensures Insert([], info, a) == ([a], 0)
  {
    var none: seq<Id> := [];
    assert none[..0] + [a] + none[0..] == [a];
  }

  // ------------------------------------------------------ what the clock needs

  /** Where a timer that is reset counts from. */
  function ResetStart(s: State, a: Id, fromNow: bool, now: nat): nat {
    if fromNow then now else (At(s.info, a).next - At(s.info, a).ms) % U64
  }

  /** The step computes no deadline beyond 64 bits. */
  predicate NoWrap(s: State, op: Op, now: nat) {
    match op
    case Add(_, ms, _, _) => now + ms < U64
    case Refresh(a) => now + At(s.info, a).ms < U64
    case Reset(a, ms, fromNow) => ResetStart(s, a, fromNow, now) + ms < U64
    case ListExpiredCb(_) => forall a :: a in s.order && At(s.info, a).recurring ==> now + At(s.info, a).ms < U64
    case _ => true
  }

  /** No deadline wrapped, and no timer counts from a time after `last`. */
  ghost predicate Timely(s: State, last: nat) {
    forall a :: a in s.info ==> s.info[a].ms <= s.info[a].next < U64 && s.info[a].next - s.info[a].ms <= last
  }

  lemma SteadyWhenTimely(s: State, op: Op, now: nat, last: nat)
    requires Inv(s) && Legal(s, op) && Timely(s, last) && NoWrap(s, op, now)
    requires op.Refresh? ==> last <= now
    requires op.ListExpiredCb? ==> !Rollover(s.previous, now)
    ensures Steady(s, op, now)
  {
    hide Rollover, Sorted, Deadline;
    if op.Refresh? {
      DeadlineSmall(now, At(s.info, op.a).ms);
    }
    forall a | op.ListExpiredCb? && a in s.order && At(s.info, a).recurring
      ensures Deadline(now, At(s.info, a).ms) == now + At(s.info, a).ms
    {
      DeadlineSmall(now, At(s.info, a).ms);
    }
  }

  lemma TimelyChange(s: State, s': State, a: Id, last: nat, last': nat)
    requires Timely(s, last) && last <= last'
    requires forall b :: b in s'.info && b != a ==> b in s.info && s'.info[b].ms == s.info[b].ms && s'.info[b].next == s.info[b].next
    requires a in s'.info ==> s'.info[a].ms <= s'.info[a].next < U64 && s'.info[a].next - s'.info[a].ms <= last'
    ensures Timely(s', last')
  {
  }

  lemma TimelyExpire(s: State, now: nat, probe: Id, last: nat)
    requires Inv(s) && Timely(s, last) && NoWrap(s, ListExpiredCb(probe), now) && !Rollover(s.previous, now)
    ensures Timely(DoListExpiredCb(s, now, probe).0, Max(last, now))
  {
    hide Rollover, Sorted, Deadline, DoListExpiredCb;
    ListExpired(s, now, probe);
    forall a | a in s.order && At(s.info, a).recurring
      ensures Deadline(now, At(s.info, a).ms) == now + At(s.info, a).ms
    {
      DeadlineSmall(now, At(s.info, a).ms);
    }
  }

  lemma TimelyReset(s: State, a: Id, ms: nat, fromNow: bool, now: nat, last: nat)
    requires a in s.info && Timely(s, last) && ResetStart(s, a, fromNow, now) + ms < U64
    ensures Timely(DoReset(s, a, ms, fromNow, now).0, Max(last, now))
  {
    hide Timely, Deadline, Insert, Find, EraseAt;
    TimelyOf(s, a, last);
    ModSmall(s.info[a].next - s.info[a].ms, U64);
    DeadlineSmall(ResetStart(s, a, fromNow, now), ms);
    TimelyChange(s, DoReset(s, a, ms, fromNow, now).0, a, last, Max(last, now));
  }

  lemma TimelyStep(s: State, op: Op, now: nat, last: nat)
    requires Inv(s) && Legal(s, op) && Timely(s, last) && NoWrap(s, op, now)
    requires op.ListExpiredCb? ==> !Rollover(s.previous, now)
    ensures Timely(Step(s, op, now).0, Max(last, now))
  {
    hide Inv, Timely, Rollover, Deadline, Insert, Find, EraseAt, DoListExpiredCb, DoReset;
    var s' := Step(s, op, now).0;
    match op
    case Add(a, ms, _, _) =>
      DeadlineSmall(now, ms);
      TimelyChange(s, s', a, last, Max(last, now));
    case Cancel(a) =>
      TimelyOf(s, a, last);
      TimelyChange(s, s', a, last, Max(last, now));
    case Refresh(a) =>
      TimelyOf(s, a, last);
      DeadlineSmall(now, s.info[a].ms);
      TimelyChange(s, s', a, last, Max(last, now));
    case Reset(a, ms, fromNow) => TimelyReset(s, a, ms, fromNow, now, last);
    case GetNextTimer => TimelyLater(s, s', last, Max(last, now));
    case ListExpiredCb(probe) => TimelyExpire(s, now, probe, last);
  }

  lemma TimelyLater(s: State, s': State, last: nat, last': nat)
    requires Timely(s, last) && last <= last' && s'.info == s.info
    ensures Timely(s', last')
  {
  }

  lemma TimelyOf(s: State, a: Id, last: nat)
    requires Timely(s, last) && a in s.info
    ensures s.info[a].ms <= s.info[a].next < U64 && s.info[a].next - s.info[a].ms <= last
  {
  }

  /** The times at which the calls read the clock: a refresh reads no earlier time
      than any call before it, an expiry none that counts as a rollover, and no
      deadline wraps.  The others may read the clock long before they take the
      lock. */
  ghost predicate Clocked(s: State, last: nat, calls: seq<Call>)
    decreases |calls|
  {
    calls != [] ==>
      var op, now := calls[0].op, calls[0].now;
      NoWrap(s, op, now) && (op.Refresh? ==> last <= now) && (op.ListExpiredCb? ==> !Rollover(s.previous, now)) &&
      Clocked(Step(s, op, now).0, Max(last, now), calls[1..])
  }

  lemma {:induction false} MeetsWhenClocked(s: State, seen: Option<nat>, last: nat, calls: seq<Call>)
    requires Inv(s) && LegalRun(s, calls) && Timely(s, last) && Clocked(s, last, calls) && Awake(s, seen)
    ensures MeetsRun(s, seen, calls)
    decreases |calls|
  {
    hide Inv, Step, Legal, Timely, Steady, NoWrap, Rollover, Awake, Meets, SeenAfter;
    if calls != [] {
      var op, now := calls[0].op, calls[0].now;
      StepInv(s, op, now);
      SteadyWhenTimely(s, op, now, last);
      SteadyMeets(s, seen, op, now);
      AwakeStep(s, seen, op, now);
      TimelyStep(s, op, now, last);
      MeetsWhenClocked(Step(s, op, now).0, SeenAfter(s, seen, op), Max(last, now), calls[1..]);
    }
  }

  /** No timer wakeup is lost: in every state of any such run of calls on a new
      manager, either the poller is being woken or no deadline is earlier than the
      one it was last told. */
  lemma NoLostWakeup(start: nat, calls: seq<Call>)
    requires var s := State(map[], [], false, start, {}); LegalRun(s, calls) && Clocked(s, start, calls)
    ensures var s := State(map[], [], false, start, {});
            AlwaysAwake(s, None, calls) && Awake(Run(s, calls), Seen(s, None, calls))
  {
    var s := State(map[], [], false, start, {});
    Initially(start);
    MeetsWhenClocked(s, None, start, calls);
    RunAwake(s, None, calls);
    AwakeAtEnd(s, None, calls);
  }

  /** What the poller is told to sleep ends at the front deadline, or now if that
      has passed.  It reads as forever exactly when the set is empty, or at time
      0 with the front at the end of time. */
  lemma SleepEndsAtFront(s: State, now: nat)
    requires Inv(s) && (s.order != [] ==> Front(s).value < U64)
    ensures var timeout := DoGetNextTimer(s, now).1.timeout;
            (s.order != [] ==> now + timeout == Max(now, Front(s).value)) &&
            (timeout == NEVER <==> s.order == [] || (now == 0 && Front(s).value == NEVER))
  {
  }

  /** The rollover test is the intended one, more than an hour back, unless the
      last look at the clock was in its first hour. */
  lemma RolloverExact(previous: nat, now: nat)
    requires previous < U64 && now < U64
    ensures (Rollover(previous, now) <==> now + 3_600_000 < previous) <==> (previous >= 3_600_000 || previous <= now)
  {
  }

  // ---------------------------------------------------------- the poller's wait

  const MAX_WAIT: int := 1000

  /** The low 32 bits as a signed int. */
  function Int32(x: nat): int {
    var low := x % 0x1_0000_0000;
    if low < 0x8000_0000 then low else low - 0x1_0000_0000
  }

  /** What idle passes to epoll_wait for the timeout it was told; a negative wait
      has no end. */
  function PollWait(timeout: nat): int {
    if timeout != NEVER then
      if Int32(timeout) > MAX_WAIT then MAX_WAIT else Int32(timeout)
    else MAX_WAIT
  }

  /** The wait is at most a second.  It has an end, and is no longer than it should
      be, exactly when the timeout's low 32 bits are below 2^31; then it is all of
      those, or the second. */
  lemma PollWaitExact(timeout: nat)
    ensures PollWait(timeout) <= 1000
    ensures timeout == 0xFFFF_FFFF_FFFF_FFFF ==> PollWait(timeout) == 1000
    ensures timeout < 0x8000_0000 ==> PollWait(timeout) == Min(timeout, 1000)
    ensures 0 <= PollWait(timeout) <= timeout <==> timeout == NEVER || timeout % 0x1_0000_0000 < 0x8000_0000
    ensures PollWait(timeout) < 0 <==> !(timeout == NEVER || timeout % 0x1_0000_0000 < 0x8000_0000)
  {
  }

  /** With a timer set the poller looks again by the front deadline, or at once if
      that has passed, exactly then; otherwise its wait has no end. */
  lemma PollEndsInTime(s: State, now: nat)
    requires Inv(s) && s.order != [] && Front(s).value < U64 && now > 0
    ensures var timeout := DoGetNextTimer(s, now).1.timeout;
            (0 <= PollWait(timeout) && now + PollWait(timeout) <= Max(now, Front(s).value)) <==>
            timeout % 0x1_0000_0000 < 0x8000_0000
    ensures var timeout := DoGetNextTimer(s, now).1.timeout;
            PollWait(timeout) < 0 <==> timeout % 0x1_0000_0000 >= 0x8000_0000
  {
    SleepEndsAtFront(s, now);
    PollWaitExact(DoGetNextTimer(s, now).1.timeout);
    hide PollWait, DoGetNextTimer, Sorted;
  }

  /** A timer of such a length, alone on a new manager: the wait has no end. */
  lemma WaitsForever(now: nat, ms: nat)
    requires 0 < now && now + ms < U64 && ms % 0x1_0000_0000 >= 0x8000_0000
    ensures var s := DoAdd(State(map[], [], false, now, {}), 0, ms, Some(0), false, now).0;
            s.order == [0] && PollWait(DoGetNextTimer(s, now).1.timeout) < 0
  {
    DeadlineSmall(now, ms);
    hide Deadline;
    InsertFirst(map[0 := Rec(false, ms, now + ms, Some(0))], 0);
  }
}
