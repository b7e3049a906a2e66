// What each call on a timer does to its record and to the set, in terms of
// deadlines and periods alone.

module TimerCalls {
  import opened Common
  import opened TimerSpec

  /** The other timers keep their records and their places in the set, and the
      poller's flags other than the wake-up are as they were. */
  ghost predicate OthersKept(s: State, s': State, a: Id) {
    && (forall b :: b != a && b in s.info ==> b in s'.info && s'.info[b] == s.info[b])
    && (forall b :: b != a && b in s'.info ==> b in s.info)
    && (forall b :: b != a ==> (b in s'.order <==> b in s.order) && (b in s'.armed <==> b in s.armed))
    && s'.previous == s.previous
  }

  /** The poller is woken exactly when `a` is in front and no wake-up is on its way;
      from then on one is. */
  predicate WokenFor(s: State, s': State, out: Out, a: Id) {
    && (out.woke <==> !s.tickled && s'.order != [] && s'.order[0] == a)
    && s'.tickled == (s.tickled || out.woke)
  }

  /** Nobody is woken. */
  predicate Unwoken(s: State, s': State, out: Out) {
    !out.woke && s'.tickled == s.tickled
  }

  lemma AddMeans(s: State, a: Id, ms: nat, cb: Option<Callback>, recurring: bool, now: nat)
    requires Inv(s) && a !in s.info
    ensures var (s', out) := Step(s, Add(a, ms, cb, recurring), now);
            && out.ok && out.fired == [] && OthersKept(s, s', a) && WokenFor(s, s', out, a)
            && a in s'.info && s'.info[a] == Rec(recurring, ms, (now + ms) % 0x1_0000_0000_0000_0000, cb)
            && a in s'.order && (a in s'.armed <==> cb.Some?)
  {
    hide Insert, Sorted;
    AddInv(s, a, ms, cb, recurring, now);
    var info := s.info[a := Rec(recurring, ms, Deadline(now, ms), cb)];
    SortedFrame(s.order, s.info, info);
    InsertSorted(s.order, info, a);
    InsertedFirst(s.order, info, a);
  }

  /** The position that the insertion returned is 0 exactly when the element is in
      front. */
  lemma InsertedFirst(order: seq<Id>, info: map<Id, Rec>, a: Id)
    requires Sorted(order, info) && a !in order
    ensures var (after, i) := Insert(order, info, a); after != [] && (i == 0 <==> after[0] == a)
  {
    InsertSorted(order, info, a);
    if order != [] {
      assert order[0] in order;
    }
    hide Insert, Sorted;
  }

  /** A timer with a callback loses it and leaves the set; one without stays as it
      is, and the call says which. */
  lemma CancelMeans(s: State, a: Id, now: nat)
    requires Inv(s) && a in s.info
    ensures var (s', out) := Step(s, Cancel(a), now);
            && out.fired == [] && OthersKept(s, s', a) && Unwoken(s, s', out)
            && (out.ok <==> s.info[a].cb.Some?) && (!out.ok ==> s' == s)
            && (out.ok ==> a in s'.info && s'.info[a] == s.info[a].(cb := None) && a !in s'.order && s'.armed == s.armed)
  {
    hide Find, EraseAt, Sorted;
    CancelInv(s, a);
    if s.info[a].cb.Some? {
      var info := s.info[a := s.info[a].(cb := None)];
      SortedFrame(s.order, s.info, info);
      EraseFound(s, info, a);
    }
  }

  /** A timer with a callback gets the deadline of its period from now; nobody is
      woken for it. */
  lemma RefreshMeans(s: State, a: Id, now: nat)
    requires Inv(s) && a in s.info
    ensures var (s', out) := Step(s, Refresh(a), now);
            && out.fired == [] && OthersKept(s, s', a) && Unwoken(s, s', out)
            && (out.ok <==> s.info[a].cb.Some?) && (!out.ok ==> s' == s)
            && (out.ok ==>
                  a in s'.info && s'.info[a] == s.info[a].(next := (now + s.info[a].ms) % 0x1_0000_0000_0000_0000) &&
                  a in s'.order && s'.armed == s.armed)
  {
    hide Find, EraseAt, Insert, Sorted;
    RefusedWithout(s, a);
    if s.info[a].cb.Some? {
      Reinserted(s, a, s.info[a].(next := Deadline(now, s.info[a].ms)));
    }
  }

  lemma RefusedWithout(s: State, a: Id)
    requires Inv(s) && a in s.info
    ensures s.info[a].cb.Some? ==> a in s.order && a in s.armed && Find(s.order, s.info, a).Some?
  {
    FindMember(s.order, s.info, a);
  }

  lemma Restarted(next: nat, period: nat, ms: nat)
    ensures Deadline((next - period) % U64, ms) == (next - period + ms) % U64
  {
    ModTwice(next - period, ms, U64);
  }

  lemma ModTwice(x: int, y: int, m: int)
    requires m > 0
    ensures (x % m + y) % m == (x + y) % m
  {
    var q, r := (x % m + y) / m, (x % m + y) % m;
    var k := x / m + q;
    assert m * (x / m) + m * q == m * k;
    assert x + y == m * k + r;
    ModIs(x + y, k, r, m);
  }

  lemma ModIs(x: int, k: int, r: int, m: int)
    requires m > 0 && x == m * k + r && 0 <= r < m
    ensures x % m == r
  {
    var d := x / m - k;
    assert m * (x / m) == m * k + m * d;
    assert -m < m * d < m;
    assert d == 0;
  }

  /** A reset to the same period that does not start from now does nothing; any
      other takes a callback, and sets the period and the deadline: from now, or
      from where the old period began.  The poller is woken for a new front. */
  lemma ResetMeans(s: State, a: Id, ms: nat, fromNow: bool, now: nat)
    requires Inv(s) && a in s.info
    ensures var (r, (s', out)) := (s.info[a], Step(s, Reset(a, ms, fromNow), now));
            && out.fired == [] && OthersKept(s, s', a) && s'.armed == s.armed
            && (ms == r.ms && !fromNow ==> out.ok && !out.woke && s' == s)
            && (ms != r.ms || fromNow ==>
                  && (out.ok <==> r.cb.Some?) && (!out.ok ==> s' == s && !out.woke)
                  && (out.ok ==>
                        && a in s'.info && a in s'.order && WokenFor(s, s', out, a)
                        && s'.info[a].ms == ms && s'.info[a].cb == r.cb && s'.info[a].recurring == r.recurring
                        && s'.info[a].next == (if fromNow then now + ms else r.next - r.ms + ms) % 0x1_0000_0000_0000_0000))
  {
    hide Find, EraseAt, Insert, Sorted, Deadline;
    RefusedWithout(s, a);
    var r := s.info[a];
    if r.cb.Some? {
      StartedFrom(r, ms, fromNow, now);
      var start := if fromNow then now else (r.next - r.ms) % U64;
      Reinserted(s, a, r.(ms := ms, next := Deadline(start, ms)));
      InsertedFirst(EraseAt(s.order, Find(s.order, s.info, a).value), s.info[a := r.(ms := ms, next := Deadline(start, ms))], a);
    }
  }

  lemma StartedFrom(r: Rec, ms: nat, fromNow: bool, now: nat)
    ensures Deadline(if fromNow then now else (r.next - r.ms) % U64, ms) ==
            (if fromNow then now + ms else r.next - r.ms + ms) % 0x1_0000_0000_0000_0000
  {
    Restarted(r.next, r.ms, ms);
  }

  /** Asking for the time to sleep changes nothing but the wake-up flag. */
  lemma NextMeans(s: State, now: nat)
    ensures var (s', out) := Step(s, GetNextTimer, now);
            s' == s.(tickled := false) && out.ok && !out.woke && out.fired == [] &&
            out.timeout == if s.order == [] then 0xFFFF_FFFF_FFFF_FFFF else Max(At(s.info, s.order[0]).next - now, 0)
  {
  }

  /** An expiry hands out exactly the timers that are due, or all after the clock
      went back by more than an hour; a recurring one goes back in with the deadline
      of its period, any other loses its callback and leaves. */
  lemma ExpireMeans(s: State, now: nat, probe: Id)
    requires Inv(s) && s.previous < U64 && now < U64
    ensures var (s', out) := Step(s, ListExpiredCb(probe), now);
            var back := now < s.previous && (now + 3_600_000 < s.previous || s.previous < 3_600_000);
            && Unwoken(s, s', out) && s'.armed == s.armed && s'.info.Keys == s.info.Keys
            && s'.previous == (if s.order == [] then s.previous else now)
            && (forall a :: a in out.fired <==> a in s.order && (back || s.info[a].next <= now))
            && (forall a :: a in s.info && a !in out.fired ==> s'.info[a] == s.info[a] && (a in s'.order <==> a in s.order))
            && (forall a :: a in out.fired ==>
                  s'.info[a] == (if s.info[a].recurring then s.info[a].(next := (now + s.info[a].ms) % 0x1_0000_0000_0000_0000)
                                 else s.info[a].(cb := None)) &&
                  (a in s'.order <==> s.info[a].recurring))
  {
    hide DoListExpiredCb, Sorted;
    ListExpired(s, now, probe);
    LookedAt(s, now, probe);
  }

  lemma LookedAt(s: State, now: nat, probe: Id)
    requires Inv(s)
    ensures var (s', out) := DoListExpiredCb(s, now, probe);
            !out.woke && s'.previous == if s.order == [] then s.previous else now
  {
    hide ExpiredCount, Rollover, Sorted, Rearm;
    var k := ExpiredCount(s, now, probe);
    if s.order != [] {
      SplitExcept(s, k, now);
      RearmInv(s.(order := s.order[k..], previous := now), s.order[..k], now);
    }
  }
}
