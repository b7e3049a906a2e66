// Timers as the objects the program changes in place, each public call against
// the value-level step it performs.

module Timers {
  import opened Common
  import opened TimerSpec

  class Timer {
    const addr: nat
    const recurring: bool
    const manager: TimerManager
    var ms: nat
    var next: nat
    var cb: Option<Callback>

    constructor (addr: nat, ms: nat, cb: Option<Callback>, recurring: bool, manager: TimerManager, now: nat)
      ensures this.addr == addr && this.manager == manager
      ensures Value() == Rec(recurring, ms, Deadline(now, ms), cb)
    {
      this.addr, this.ms, this.cb, this.recurring, this.manager := addr, ms, cb, recurring, manager;
      this.next := (now + ms) % U64;
    }

    function Value(): Rec
      reads this
    {
      Rec(recurring, ms, next, cb)
    }

    /** Stops the timer: false when it has no callback any more. */
    method Cancel() returns (ok: bool)
      requires manager.Valid() && manager.Owns(this)
      modifies manager, this
      ensures manager.Valid() && manager.Owns(this)
      ensures var (s, out) := DoCancel(old(manager.View()), addr); manager.View() == s && ok == out.ok
    {
      hide Inv, Find, EraseAt;
      ghost var before := manager.View();
      CancelInv(before, addr);
      if cb.Some? {
        cb := None;
        manager.InfoAfter(before, this);
        var it := manager.FindTimer(this);
        manager.EraseTimer(it.value);
        return true;
      }
      return false;
    }

    /** Starts the period again from now. */
    method Refresh(now: nat) returns (ok: bool)
      requires manager.Valid() && manager.Owns(this)
      modifies manager, this
      ensures manager.Valid() && manager.Owns(this)
      ensures var (s, out) := DoRefresh(old(manager.View()), addr, now); manager.View() == s && ok == out.ok
    {
      hide Inv, Find, EraseAt, Insert;
      ghost var before := manager.View();
      RefreshInv(before, addr, now);
      if cb.None? {
        return false;
      }
      var it := manager.FindTimer(this);
      if it.None? {
        return false;
      }
      manager.EraseTimer(it.value);
      ghost var mid := manager.View();
      next := (now + ms) % U64;
      manager.InfoAfter(mid, this);
      var _ := manager.InsertTimer(this);
      return true;
    }

    /** Changes the period, counted from now or from where the current one began. */
    method Reset(newMs: nat, fromNow: bool, now: nat) returns (ok: bool, woke: bool)
      requires manager.Valid() && manager.Owns(this)
      modifies manager, this
      ensures manager.Valid() && manager.Owns(this)
      ensures var (s, out) := DoReset(old(manager.View()), addr, newMs, fromNow, now);
              manager.View() == s && ok == out.ok && woke == out.woke
    {
      hide Inv, Find, EraseAt, InsertAndTickle, Deadline;
      ghost var before := manager.View();
      manager.RecordOf(this);
      ResetInv(before, addr, newMs, fromNow, now);
      if newMs == ms && !fromNow {
        return true, false;
      }
      if cb.None? {
        return false, false;
      }
      var it := manager.FindTimer(this);
      if it.None? {
        return false, false;
      }
      manager.EraseTimer(it.value);
      var start: nat := 0;
      if fromNow {
        start := now;
      } else {
        start := (next - ms) % U64;
      }
      woke := Restart(start, newMs);
      ok := true;
    }

    /** A new period from `start`, back into the set. */
    method Restart(start: nat, newMs: nat) returns (woke: bool)
      requires manager.Linked() && manager.Owns(this)
      modifies manager`timers, manager`tickled, `ms, `next
      ensures manager.Linked()
      ensures var before := old(manager.View());
              var info := before.info[addr := Rec(recurring, newMs, Deadline(start, newMs), cb)];
              var (s, out) := InsertAndTickle(before.(info := info), addr);
              manager.View() == s && woke == out.woke
    {
      hide InsertAndTickle;
      ghost var before := manager.View();
      ms := newMs;
      next := (start + ms) % U64;
      manager.InfoAfter(before, this);
      woke := manager.InsertAndWake(this);
    }
  }

  function Addrs(ts: seq<Timer>): (r: seq<nat>)
    ensures |r| == |ts|
    ensures forall i :: 0 <= i < |ts| ==> r[i] == ts[i].addr
  {
    seq(|ts|, i requires 0 <= i < |ts| => ts[i].addr)
  }

  lemma Split(ts: seq<Timer>, k: nat)
    requires k <= |ts|
    ensures (forall t :: t in ts[..k] ==> t in ts) && (forall t :: t in ts[k..] ==> t in ts)
    ensures Addrs(ts[..k]) == Addrs(ts)[..k] && Addrs(ts[k..]) == Addrs(ts)[k..]
  {
  }

  lemma Spliced(ts: seq<Timer>, i: nat, t: Timer)
    requires i <= |ts|
    ensures var after := ts[..i] + [t] + ts[i..];
            (forall x :: x in after ==> x == t || x in ts) &&
            Addrs(after) == Addrs(ts)[..i] + [t.addr] + Addrs(ts)[i..]
  {
  }

  class TimerManager {
    var timers: seq<Timer>
    var tickled: bool
    var previousTime: nat

    /** Every timer ever created, by address, and those created with a callback. */
    ghost var registry: map<nat, Timer>
    ghost var armed: set<nat>

    ghost function Records(): map<nat, Rec>
      reads `registry, registry.Values
    {
      map a | a in registry :: registry[a].Value()
    }

    ghost function View(): State
      reads this, registry.Values
    {
      State(Records(), Addrs(timers), tickled, previousTime, armed)
    }

    /** The set holds timers of this manager. */
    ghost predicate Linked()
      reads this
    {
      && (forall a :: a in registry ==> registry[a].addr == a && registry[a].manager == this)
      && (forall t :: t in timers ==> Owns(t))
    }

    ghost predicate Owns(t: Timer)
      reads this
    {
      t.addr in registry && registry[t.addr] == t
    }

    ghost predicate Valid()
      reads this, registry.Values
    {
      Linked() && Inv(View())
    }

    constructor (now: nat)
      ensures Valid() && View() == State(map[], [], false, now, {})
    {
      timers, tickled, previousTime := [], false, now;
      registry, armed := map[], {};
    }

    /** Changing one timer changes its record and no other. */
    lemma InfoAfter(before: State, t: Timer)
      requires Linked() && Owns(t)
      requires before.info.Keys == registry.Keys
      requires forall a :: a in registry && registry[a] != t ==> before.info[a] == registry[a].Value()
      ensures View().info == before.info[t.addr := t.Value()]
    {
      forall a | a in registry
        ensures View().info[a] == before.info[t.addr := t.Value()][a]
      {
        if registry[a] != t {
          assert a != t.addr;
        }
      }
    }

    // --------------------------------------------- the ordered set of timers

    /** std::set::lower_bound */
    method LowerBoundTimer(key: Key) returns (i: nat)
      requires Linked()
      ensures i == LowerBound(View().order, View().info, key)
    {
      i := 0;
      ghost var order, info := View().order, View().info;
      assert order[0..] == order;
      while i < |timers| && Less(Key(timers[i].next, timers[i].addr), key)
        invariant i <= |timers|
        invariant i + LowerBound(order[i..], info, key) == LowerBound(order, info, key)
      {
        RecordOf(timers[i]);
        LowerBoundStep(order, info, key, i);
        i := i + 1;
      }
      if i < |timers| {
        RecordOf(timers[i]);
        LowerBoundStep(order, info, key, i);
      }
    }

    lemma RecordOf(t: Timer)
      requires Linked() && Owns(t)
      ensures t.addr in View().info && View().info[t.addr] == t.Value()
      ensures KeyOf(View().info, t.addr) == Key(t.next, t.addr)
    {
    }

    method FindTimer(t: Timer) returns (it: Option<nat>)
      requires Linked() && Owns(t)
      ensures it == Find(View().order, View().info, t.addr)
    {
      hide LowerBound;
      RecordOf(t);
      var i := LowerBoundTimer(Key(t.next, t.addr));
      if i < |timers| && !Less(Key(t.next, t.addr), Key(timers[i].next, timers[i].addr)) {
        RecordOf(timers[i]);
        return Some(i);
      }
      if i < |timers| {
        RecordOf(timers[i]);
      }
      return None;
    }

    method InsertTimer(t: Timer) returns (i: nat)
      requires Linked() && Owns(t)
      modifies `timers
      ensures Linked()
      ensures View() == old(View()).(order := Insert(old(View()).order, old(View()).info, t.addr).0)
      ensures i == Insert(old(View()).order, old(View()).info, t.addr).1
    {
      hide LowerBound, Records, Less;
      RecordOf(t);
      i := LowerBoundTimer(Key(t.next, t.addr));
      if i < |timers| {
        RecordOf(timers[i]);
      }
      if !(i < |timers| && !Less(Key(t.next, t.addr), Key(timers[i].next, timers[i].addr))) {
        ghost var order, all := View().order, timers;
        timers := timers[..i] + [t] + timers[i..];
        Spliced(all, i, t);
      }
    }

    method EraseTimer(i: nat)
      requires Linked() && i < |timers|
      modifies `timers
      ensures Linked()
      ensures View() == old(View()).(order := EraseAt(old(View()).order, i))
    {
      hide Records;
      ghost var order, before := View().order, timers;
      timers := timers[..i] + timers[i + 1..];
      assert forall t :: t in timers ==> t in before;
      assert Addrs(timers) == EraseAt(order, i);
    }

    /** The protected addTimer.  Waking the poller is the virtual
        onTimerInsertAtFront. */
    method InsertAndWake(t: Timer) returns (atFront: bool)
      requires Linked() && Owns(t)
      modifies `timers, `tickled
      ensures Linked()
      ensures var (s, out) := InsertAndTickle(old(View()), t.addr); View() == s && atFront == out.woke
    {
      hide Insert, Records;
      var it := InsertTimer(t);
      atFront := it == 0 && !tickled;
      if atFront {
        tickled := true;
      }
    }

    // ------------------------------------------------------------ public calls

    method AddTimer(ms: nat, cb: Option<Callback>, recurring: bool, now: nat, addr: nat)
      returns (timer: Timer, woke: bool)
      requires Valid() && addr !in registry
      modifies this
      ensures Valid() && fresh(timer) && Owns(timer) && timer.addr == addr && timer.manager == this
      ensures registry == old(registry)[addr := timer]
      ensures var (s, out) := DoAdd(old(View()), addr, ms, cb, recurring, now); View() == s && woke == out.woke
    {
      hide Inv, InsertAndTickle, Deadline, Records, Addrs;
      ghost var before, was := View(), registry;
      Named();
      AddInv(before, addr, ms, cb, recurring, now);
      timer := new Timer(addr, ms, cb, recurring, this, now);
      registry := registry[addr := timer];
      armed := if cb.Some? then armed + {addr} else armed;
      Registered(before, was, timer);
      woke := InsertAndWake(timer);
    }

    lemma Named()
      ensures View().info.Keys == registry.Keys
      ensures forall a :: a in registry ==> View().info[a] == registry[a].Value()
    {
    }

    /** The records after one more timer was registered. */
    lemma Registered(before: State, was: map<nat, Timer>, timer: Timer)
      requires before.info.Keys == was.Keys && registry == was[timer.addr := timer]
      requires forall a :: a in was && a != timer.addr ==> before.info[a] == was[a].Value()
      ensures Records() == before.info[timer.addr := timer.Value()]
    {
    }

    method GetNextTimer(now: nat) returns (timeout: nat)
      requires Valid()
      modifies `tickled
      ensures Valid()
      ensures var (s, out) := DoGetNextTimer(old(View()), now); View() == s && timeout == out.timeout
    {
      hide Records, Inv;
      FlagInv(View(), false);
      tickled := false;
      if timers == [] {
        return NEVER;
      }
      var next := timers[0];
      RecordOf(next);
      if now >= next.next {
        return 0;
      } else {
        return next.next - now;
      }
    }

    method DeleteClockRollover(now: nat) returns (rollover: bool)
      modifies `previousTime
      ensures rollover == Rollover(old(previousTime), now) && previousTime == now
    {
      rollover := false;
      if now < previousTime && now < (previousTime - 60 * 60 * 1000) % U64 {
        rollover := true;
      }
      previousTime := now;
    }

    /** The callbacks of the expired timers.  `probe` is the address of the
        temporary timer that is searched for. */
    method ListExpiredCallbacks(now: nat, probe: nat) returns (cbs: seq<Option<Callback>>)
      requires Valid()
      modifies this, timers
      ensures Valid() && registry == old(registry)
      ensures View() == DoListExpiredCb(old(View()), now, probe).0
      ensures cbs == Callbacks(old(View()).info, DoListExpiredCb(old(View()), now, probe).1.fired)
    {
      hide Inv, LowerBound, ExpiredCount, Rearm, Rollover, Records;
      ghost var before := View();
      ListExpired(before, now, probe);
      if timers == [] {
        return [];
      }
      RecordOf(timers[0]);
      var rollover := DeleteClockRollover(now);
      assert View() == before.(previous := now);
      if !rollover && timers[0].next > now {
        return [];
      }
      cbs := TakeExpired(now, probe, rollover, before);
    }

    /** The part of the batch after the early returns. */
    method TakeExpired(now: nat, probe: nat, rollover: bool, ghost before: State) returns (cbs: seq<Option<Callback>>)
      requires Linked() && View() == before.(previous := now) && rollover == Rollover(before.previous, now)
      requires Inv(before)
      modifies `timers, timers
      ensures Linked() && registry == old(registry)
      ensures var k := ExpiredCount(before, now, probe);
              View() == Rearm(before.(order := before.order[k..], previous := now), before.order[..k], now) &&
              cbs == Callbacks(before.info, before.order[..k])
    {
      hide Inv, LowerBound, SkipEqual, Rearm, Rollover, Distinct, Records, Callbacks, Addrs;
      var it := |timers|;
      if !rollover {
        it := LowerBoundTimer(Key(now, probe));
      }
      it := SkipEqualTimers(it, now);
      SkipEqualEnd(before.order, before.info, now);
      SplitDistinct(before, it);
      assert it == ExpiredCount(before, now, probe);
      ghost var all := timers;
      var expired := timers[..it];
      timers := timers[it..];
      Split(all, it);
      assert View() == before.(order := before.order[it..], previous := now);
      cbs := RearmTimers(expired, now);
    }

    /** The loop over the expired timers. */
    method RearmTimers(expired: seq<Timer>, now: nat) returns (cbs: seq<Option<Callback>>)
      requires Linked() && (forall t :: t in expired ==> Owns(t)) && Distinct(Addrs(expired))
      modifies `timers, expired
      ensures Linked() && registry == old(registry)
      ensures View() == Rearm(old(View()), Addrs(expired), now)
      ensures cbs == Callbacks(old(View()).info, Addrs(expired))
    {
      hide RearmOne, Rearm, Callbacks;
      cbs := [];
      ghost var start, addrs := View(), Addrs(expired);
      assert addrs[0..] == addrs;
      for i := 0 to |expired|
        invariant Linked() && registry == old(registry) && (forall t :: t in expired ==> Owns(t))
        invariant Rearm(View(), addrs[i..], now) == Rearm(start, addrs, now)
        invariant forall j :: i <= j < |expired| ==> expired[j].Value() == old(expired[j].Value())
        invariant cbs + Callbacks(start.info, addrs[i..]) == Callbacks(start.info, addrs)
      {
        var timer := expired[i];
        BatchStep(View(), start.info, addrs, i, now);
        assert timer in expired;
        RecordOf(timer);
        cbs := cbs + [timer.cb];
        RearmTimer(timer, now);
      }
      BatchEnd(View(), start.info, addrs, now);
    }

    /** One turn of the loop over the expired timers. */
    method RearmTimer(timer: Timer, now: nat)
      requires Linked() && Owns(timer)
      modifies `timers, timer
      ensures Linked() && registry == old(registry)
      ensures View() == RearmOne(old(View()), timer.addr, now)
    {
      hide Insert, Deadline;
      ghost var before := View();
      RecordOf(timer);
      if timer.recurring {
        timer.next := Deadline(now, timer.ms);
        InfoAfter(before, timer);
        var _ := InsertTimer(timer);
      } else {
        timer.cb := None;
        InfoAfter(before, timer);
      }
    }

    /** The loop past the deadlines equal to now. */
    method SkipEqualTimers(from: nat, now: nat) returns (it: nat)
      requires Linked() && from <= |timers|
      ensures it == SkipEqual(View().order, View().info, from, now)
    {
      it := from;
      while it < |timers| && timers[it].next == now
        invariant from <= it <= |timers|
        invariant SkipEqual(View().order, View().info, it, now) == SkipEqual(View().order, View().info, from, now)
      {
        RecordOf(timers[it]);
        it := it + 1;
      }
      if it < |timers| {
        RecordOf(timers[it]);
      }
    }
  }

  function Callbacks(info: map<Id, Rec>, fired: seq<Id>): seq<Option<Callback>> {
    if fired == [] then [] else [At(info, fired[0]).cb] + Callbacks(info, fired[1..])
  }

  /** One for each timer that fired, in that order: its own. */
  lemma {:induction false} CallbackOf(info: map<Id, Rec>, fired: seq<Id>, i: nat)
    requires i < |fired|
    ensures |Callbacks(info, fired)| == |fired|
    ensures fired[i] in info ==> Callbacks(info, fired)[i] == info[fired[i]].cb
  {
    if i > 0 {
      CallbackOf(info, fired[1..], i - 1);
    } else if |fired| > 1 {
      CallbackOf(info, fired[1..], 0);
    }
  }

  lemma BatchStep(s: State, info: map<Id, Rec>, addrs: seq<Id>, i: nat, now: nat)
    requires i < |addrs|
    ensures Rearm(s, addrs[i..], now) == Rearm(RearmOne(s, addrs[i], now), addrs[i + 1..], now)
    ensures Callbacks(info, addrs[i..]) == [At(info, addrs[i]).cb] + Callbacks(info, addrs[i + 1..])
  {
    assert addrs[i..][1..] == addrs[i + 1..];
  }

  lemma BatchEnd(s: State, info: map<Id, Rec>, addrs: seq<Id>, now: nat)
    ensures Rearm(s, addrs[|addrs|..], now) == s && Callbacks(info, addrs[|addrs|..]) == []
  {
  }

  lemma SkipEqualEnd(order: seq<Id>, info: map<Id, Rec>, now: nat)
    ensures SkipEqual(order, info, |order|, now) == |order|
  {
  }

  lemma SplitDistinct(s: State, k: nat)
    requires Inv(s) && k <= |s.order|
    ensures Distinct(s.order[..k])
  {
    SplitExcept(s, k, 0);
  }

  lemma LowerBoundStep(order: seq<Id>, info: map<Id, Rec>, key: Key, i: nat)
    requires i < |order|
    ensures LowerBound(order[i..], info, key) ==
      if Less(KeyOf(info, order[i]), key) then 1 + LowerBound(order[i + 1..], info, key) else 0
  {
    assert order[i..][1..] == order[i + 1..];
  }
}
