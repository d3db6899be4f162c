/** What the login throttle bounds: how fast failures can be counted on one key, how
    many keys of each size it tracks, and what a refusal can reveal. */
module ThrottleBounds {
  import opened Prelude
  import opened ThrottleKeys
  import opened LoginThrottle
  import opened ThrottleRuns

  // ----- Six counted failures span the cooldown ---------------------------------------------

  /** Any six consecutive failures span at least the cooldown. */
  ghost predicate Spaced(times: seq<nat>, cooldown: nat) {
    forall i, j :: 0 <= i && j == i + FAIL_LIMIT < |times| ==> times[j] >= SatAdd(times[i], cooldown)
  }

  ghost predicate Ordered(times: seq<nat>, clock: nat) {
    && (forall i, j :: 0 <= i <= j < |times| ==> times[i] <= times[j])
    && (forall i :: 0 <= i < |times| ==> times[i] <= clock)
  }

  /** The last failure is at least a cooldown old. */
  predicate Forgiven(times: seq<nat>, clock: nat, cooldown: nat) {
    times == [] || clock >= SatAdd(times[|times| - 1], cooldown)
  }

  /** The last `count` failures each came within the cooldown of the one before. */
  ghost predicate Streak(times: seq<nat>, count: nat, cooldown: nat) {
    count <= |times| && forall i :: |times| - count < i < |times| ==> times[i] < times[i - 1] + cooldown
  }

  /** How a window accounts for its key's failures: with a zero count they are all
      forgiven or a lockout covers the last one and nothing is in flight; otherwise the
      count is the length of a streak that began a cooldown after everything before it. */
  ghost predicate Accounts(w: FailWindow, times: seq<nat>, clock: nat, cooldown: nat) {
    var n := |times|;
    if w.count == 0 then
      || Forgiven(times, clock, cooldown)
      || (w.blockedUntilMs == SatAdd(times[n - 1], cooldown) && InFlight(w.pending) == 0)
    else
      && Streak(times, w.count, cooldown) && w.lastMs == times[n - 1]
      && (w.count < n ==> times[n - w.count] >= SatAdd(times[n - w.count - 1], cooldown))
  }

  ghost predicate KeyOk(cooldown: nat, s: System, k: Key) {
    var times := FailuresOn(s, k);
    Ordered(times, s.clock) && Spaced(times, cooldown) && TableAccounts(s.table, k, times, s.clock, cooldown)
  }

  /** The table accounts for the failures on `k`, tracked or not. */
  ghost predicate TableAccounts(t: Table, k: Key, times: seq<nat>, clock: nat, cooldown: nat) {
    if k in t.windows then Accounts(t.windows[k], times, clock, cooldown) else Forgiven(times, clock, cooldown)
  }

  /** A full-map sweep throws away the running count of `k`. */
  predicate Sheds(cooldown: nat, s: System, e: Event, k: Key) {
    && e.AdmitEvent? && Tracked(s.table.windows, KeysOf(e.ip)).None?
    && SweepDue(s.table, e.now) && |s.table.windows| >= CAP
    && k in s.table.windows
    && var w := s.table.windows[k];
       w.count > 0 && !Live(w, e.now) && !Decayed(w, e.now, cooldown)
  }

  lemma AdmitAccounts(w: FailWindow, times: seq<nat>, clock: nat, cooldown: nat, guess: Option<nat>, now: nat)
    requires cooldown > 0 && clock <= now && Accounts(w, times, clock, cooldown)
    ensures var a := AdmitWindow(w, guess, now, cooldown);
            if a.Drop? then Forgiven(times, now, cooldown) else Accounts(a.window, times, now, cooldown)
  {
  }

  /** A window a sweep drops, other than by shedding its count, was already forgiven. */
  lemma SweptIsForgiven(w: FailWindow, times: seq<nat>, clock: nat, cooldown: nat, full: bool, now: nat)
    requires cooldown > 0 && clock <= now && Accounts(w, times, clock, cooldown) && !Survives(w, full, now, cooldown)
    requires full ==> w.count == 0 || Decayed(w, now, cooldown)
    ensures Forgiven(times, now, cooldown)
  {
  }

  /** A release that counts no failure leaves the accounting as it was. */
  lemma UncountedAccounts(w: FailWindow, times: seq<nat>, clock: nat, cooldown: nat, fp: nat, failed: bool, now: nat)
    requires clock <= now && WindowOk(w) && Refs(w.pending, fp) > 0 && !Counts(w, fp, failed)
    requires Accounts(w, times, clock, cooldown)
    ensures Accounts(ReleaseWindow(w, fp, failed, now, cooldown), times, now, cooldown)
  {
    InFlightBounds(w.pending);
  }

  /** The failures on a key are in order, spaced, and accounted for by its window. */
  ghost predicate HistoryOk(w: FailWindow, times: seq<nat>, clock: nat, cooldown: nat) {
    Ordered(times, clock) && Spaced(times, cooldown) && Accounts(w, times, clock, cooldown)
  }

  lemma OrderedGrows(times: seq<nat>, clock: nat, now: nat)
    requires Ordered(times, clock) && clock <= now
    ensures Ordered(times, now) && Ordered(times + [now], now)
  {
  }

  lemma CountedKeeps(w: FailWindow, times: seq<nat>, clock: nat, cooldown: nat, fp: nat, failed: bool, now: nat)
    requires cooldown > 0 && clock <= now && WindowOk(w) && HistoryOk(w, times, clock, cooldown)
    requires Refs(w.pending, fp) > 0 && Counts(w, fp, failed)
    ensures HistoryOk(ReleaseWindow(w, fp, failed, now, cooldown), times + [now], now, cooldown)
  {
    OrderedGrows(times, clock, now);
    assert InFlight(w.pending) > 0 by {
      InFlightBounds(w.pending);
    }
    ReleaseWindowKeeps(w, fp, failed, now, cooldown);
    CountedIsSpaced(w, times, clock, cooldown, now);
    CountedAccounts(w, times, clock, cooldown, fp, failed, now);
  }

  lemma ReleaseAccounts(w: FailWindow, times: seq<nat>, clock: nat, cooldown: nat, fp: nat, failed: bool, now: nat)
    requires cooldown > 0 && clock <= now && WindowOk(w) && Refs(w.pending, fp) > 0
    requires HistoryOk(w, times, clock, cooldown)
    ensures HistoryOk(ReleaseWindow(w, fp, failed, now, cooldown),
                      if Counts(w, fp, failed) then times + [now] else times, now, cooldown)
  {
    if Counts(w, fp, failed) {
      CountedKeeps(w, times, clock, cooldown, fp, failed, now);
    } else {
      OrderedGrows(times, clock, now);
      UncountedAccounts(w, times, clock, cooldown, fp, failed, now);
    }
  }

  lemma CountedAccounts(w: FailWindow, times: seq<nat>, clock: nat, cooldown: nat, fp: nat, failed: bool, now: nat)
    requires cooldown > 0 && clock <= now && WindowOk(w) && Counts(w, fp, failed) && InFlight(w.pending) > 0
    requires Ordered(times, clock) && Accounts(w, times, clock, cooldown)
    requires var r := ReleaseWindow(w, fp, failed, now, cooldown); r.count == 0 ==> InFlight(r.pending) == 0
    ensures Accounts(ReleaseWindow(w, fp, failed, now, cooldown), times + [now], now, cooldown)
  {
    var all := times + [now];
    var n := |times|;
    assert forall i :: 0 <= i < n ==> all[i] == times[i];
    if w.count == 0 || Decayed(w, now, cooldown) {
      assert Forgiven(times, now, cooldown);
    } else {
      StreakGrows(times, w.count, cooldown, now);
    }
  }

  lemma StreakGrows(times: seq<nat>, count: nat, cooldown: nat, now: nat)
    requires Streak(times, count, cooldown) && count > 0 && now < times[|times| - 1] + cooldown
    ensures Streak(times + [now], count + 1, cooldown)
  {
  }

  /** The failure about to be counted keeps six failures a cooldown apart. */
  lemma CountedIsSpaced(w: FailWindow, times: seq<nat>, clock: nat, cooldown: nat, now: nat)
    requires clock <= now && w.count < FAIL_LIMIT && InFlight(w.pending) > 0
    requires Ordered(times, clock) && Spaced(times, cooldown) && Accounts(w, times, clock, cooldown)
    ensures Spaced(times + [now], cooldown)
  {
    var n := |times|;
    if n >= FAIL_LIMIT {
      var first := times[n - FAIL_LIMIT];
      if w.count == 0 {
        assert first <= times[n - 1];
      } else {
        assert first <= times[n - w.count - 1];
        assert times[n - w.count] <= now;
      }
    }
  }

  lemma AdmittedKeyOk(cooldown: nat, s: System, e: Event, k: Key)
    requires e.AdmitEvent? && s.clock <= e.now && KeyOk(cooldown, s, k)
    requires TableAccounts(Admit(cooldown, s.table, e.ip, e.guess, e.now).1, k, FailuresOn(s, k), e.now, cooldown)
    ensures KeyOk(cooldown, After(cooldown, s, e), k)
  {
  }

  lemma AdmitTrackedKeepsKey(cooldown: nat, s: System, e: Event, k: Key)
    requires cooldown > 0 && e.AdmitEvent? && s.clock <= e.now && KeyOk(cooldown, s, k)
    requires Tracked(s.table.windows, KeysOf(e.ip)).Some?
    ensures KeyOk(cooldown, After(cooldown, s, e), k)
  {
    var times := FailuresOn(s, k);
    if k == Tracked(s.table.windows, KeysOf(e.ip)).value {
      AdmitAccounts(s.table.windows[k], times, s.clock, cooldown, e.guess, e.now);
      TrackedShape(cooldown, s.table, e.ip, e.guess, e.now, times);
    } else {
      OthersUntouched(cooldown, s.table, e.ip, e.guess, e.now, k);
    }
    AdmittedKeyOk(cooldown, s, e, k);
  }

  /** An admission counted under one key leaves every other window alone. */
  lemma OthersUntouched(cooldown: nat, t: Table, ip: IpAddr, guess: Option<nat>, now: nat, k: Key)
    requires cooldown > 0 && Tracked(t.windows, KeysOf(ip)).Some? && k != Tracked(t.windows, KeysOf(ip)).value
    ensures var t' := Admit(cooldown, t, ip, guess, now).1;
            (k in t'.windows <==> k in t.windows) && (k in t'.windows ==> t'.windows[k] == t.windows[k])
  {
  }

  /** The tracked window after an admission is the one its answer says. */
  lemma TrackedShape(cooldown: nat, t: Table, ip: IpAddr, guess: Option<nat>, now: nat, times: seq<nat>)
    requires cooldown > 0 && Tracked(t.windows, KeysOf(ip)).Some?
    requires var a := AdmitWindow(t.windows[Tracked(t.windows, KeysOf(ip)).value], guess, now, cooldown);
             if a.Drop? then Forgiven(times, now, cooldown) else Accounts(a.window, times, now, cooldown)
    ensures var key := Tracked(t.windows, KeysOf(ip)).value;
            var t' := Admit(cooldown, t, ip, guess, now).1;
            TableAccounts(t', key, times, now, cooldown)
  {
  }

  lemma AdmitNewKeepsKey(cooldown: nat, s: System, e: Event, k: Key)
    requires cooldown > 0 && e.AdmitEvent? && s.clock <= e.now && KeyOk(cooldown, s, k)
    requires Tracked(s.table.windows, KeysOf(e.ip)).None? && !Sheds(cooldown, s, e, k)
    ensures KeyOk(cooldown, After(cooldown, s, e), k)
  {
    SweepAccounts(cooldown, s, e, k);
    NewKeyUntracked(s.table, KeysOf(e.ip), e.guess, e.now, cooldown, k);
    AdmittedKeyOk(cooldown, s, e, k);
  }

  lemma SweepAccounts(cooldown: nat, s: System, e: Event, k: Key)
    requires cooldown > 0 && e.AdmitEvent? && s.clock <= e.now && KeyOk(cooldown, s, k)
    requires Tracked(s.table.windows, KeysOf(e.ip)).None? && !Sheds(cooldown, s, e, k)
    ensures TableAccounts(Sweep(s.table, e.now, cooldown), k, FailuresOn(s, k), e.now, cooldown)
  {
    if k in s.table.windows && k !in Sweep(s.table, e.now, cooldown).windows {
      SweptIsForgiven(s.table.windows[k], FailuresOn(s, k), s.clock, cooldown, |s.table.windows| >= CAP, e.now);
    }
  }

  /** Admitting an untracked address leaves every swept window as it was and may start
      one with a zero count under a key that was not tracked before. */
  lemma NewKeyUntracked(t: Table, keys: seq<Key>, guess: Option<nat>, now: nat, cooldown: nat, k: Key)
    requires |keys| == 3 && Tracked(t.windows, keys).None?
    ensures var swept := Sweep(t, now, cooldown); var t' := AdmitNew(t, keys, guess, now, cooldown).1;
            && (k in swept.windows ==> k in t'.windows && t'.windows[k] == swept.windows[k])
            && (k in t'.windows && k !in swept.windows ==> t'.windows[k].count == 0)
  {
    assert keys[0] in keys && keys[1] in keys && keys[2] in keys;
  }

  lemma AdmitKeepsKey(cooldown: nat, s: System, e: Event, k: Key)
    requires cooldown > 0 && e.AdmitEvent? && s.clock <= e.now
    requires KeyOk(cooldown, s, k) && !Sheds(cooldown, s, e, k)
    ensures KeyOk(cooldown, After(cooldown, s, e), k)
  {
    if Tracked(s.table.windows, KeysOf(e.ip)).Some? {
      AdmitTrackedKeepsKey(cooldown, s, e, k);
    } else {
      AdmitNewKeepsKey(cooldown, s, e, k);
    }
  }

  lemma SettleKeepsKey(cooldown: nat, s: System, e: Event, k: Key)
    requires cooldown > 0 && e.SettleEvent? && Possible(s, e) && s.clock <= e.now
    requires SlotsOk(s) && KeyOk(cooldown, s, k)
    ensures KeyOk(cooldown, After(cooldown, s, e), k)
  {
    var s' := After(cooldown, s, e);
    if k == e.key {
      assert s.held[(e.key, e.fp)] == TableRefs(s.table, e.key, e.fp);
      assert WindowOk(s.table.windows[k]);
      ReleaseAccounts(s.table.windows[k], FailuresOn(s, k), s.clock, cooldown, e.fp, e.failed, e.now);
    } else {
      assert FailuresOn(s', k) == FailuresOn(s, k) && s'.clock == e.now;
      assert k in s.table.windows <==> k in s'.table.windows;
      assert k in s.table.windows ==> s'.table.windows[k] == s.table.windows[k];
    }
  }

  lemma {:induction false} RunKeepsKey(cooldown: nat, states: seq<System>, events: seq<Event>, k: Key, i: nat)
    requires cooldown > 0 && IsRun(cooldown, states, events) && i <= |events|
    requires forall m :: 0 <= m < i ==> states[m].clock <= events[m].now && !Sheds(cooldown, states[m], events[m], k)
    ensures KeyOk(cooldown, states[i], k)
    decreases i
  {
    if i > 0 {
      RunKeepsKey(cooldown, states, events, k, i - 1);
      RunSlots(cooldown, states, events, i - 1);
      assert Follows(cooldown, states, events, i - 1);
      if events[i - 1].AdmitEvent? {
        AdmitKeepsKey(cooldown, states[i - 1], events[i - 1], k);
      } else {
        SettleKeepsKey(cooldown, states[i - 1], events[i - 1], k);
      }
    }
  }

  /** With a clock that never goes back, and no full-map sweep shedding the key's running
      count, any six failures counted on one key span at least the cooldown, whatever the
      guesses, idle removals, expiry sweeps and overlapping attempts. */
  lemma SixFailuresSpanTheCooldown(cooldown: nat, states: seq<System>, events: seq<Event>, k: Key, a: nat, b: nat)
    requires cooldown > 0 && IsRun(cooldown, states, events)
    requires forall m :: 0 <= m < |events| ==>
               states[m].clock <= events[m].now && !Sheds(cooldown, states[m], events[m], k)
    requires a + FAIL_LIMIT <= b < |FailuresOn(states[|events|], k)|
    ensures FailuresOn(states[|events|], k)[b] >= SatAdd(FailuresOn(states[|events|], k)[a], cooldown)
  {
    RunKeepsKey(cooldown, states, events, k, |events|);
    var times := FailuresOn(states[|events|], k);
    assert times[b - FAIL_LIMIT] >= times[a];
    assert times[b] >= SatAdd(times[b - FAIL_LIMIT], cooldown);
  }

  /** A lockout engages only on a fifth failure in a row, each within the cooldown of the
      one before: failures further apart never add up. */
  lemma LockoutTakesFiveCloseFailures(cooldown: nat, states: seq<System>, events: seq<Event>, k: Key, i: nat)
    requires cooldown > 0 && IsRun(cooldown, states, events) && i < |events|
    requires forall m :: 0 <= m <= i ==> states[m].clock <= events[m].now && !Sheds(cooldown, states[m], events[m], k)
    requires k in states[i].table.windows && k in states[i + 1].table.windows
    requires states[i + 1].table.windows[k].blockedUntilMs != states[i].table.windows[k].blockedUntilMs
    ensures Streak(FailuresOn(states[i + 1], k), FAIL_LIMIT, cooldown)
    ensures states[i + 1].table.windows[k].blockedUntilMs == SatAdd(events[i].now, cooldown)
  {
    RunKeepsKey(cooldown, states, events, k, i);
    RunSlots(cooldown, states, events, i);
    assert Follows(cooldown, states, events, i);
    LockoutTakesASettlement(cooldown, states[i], events[i], k);
    assert WindowOk(states[i].table.windows[k]);
  }

  // ----- How many keys of each size are tracked -------------------------------------------------

  /** The tracked keys no coarser than `tier`. */
  function UpToTier(windows: map<Key, FailWindow>, tier: nat): set<Key> {
    set k | k in windows && Tier(k) <= tier
  }

  predicate TiersOk(t: Table) {
    && |UpToTier(t.windows, 0)| <= CAP / 2
    && |UpToTier(t.windows, 1)| <= CAP / 4 * 3
    && |t.windows| <= CAP
  }

  lemma SubsetIsSmaller<T>(a: set<T>, b: set<T>)
    requires a <= b
    ensures |a| <= |b|
  {
    assert b == a + (b - a);
  }

  /** Dropping or rewriting windows keeps the bounds. */
  lemma FewerKeysKeepTiers(t: Table, t': Table)
    requires TiersOk(t) && t'.windows.Keys <= t.windows.Keys
    ensures TiersOk(t')
  {
    SubsetIsSmaller(UpToTier(t'.windows, 0), UpToTier(t.windows, 0));
    SubsetIsSmaller(UpToTier(t'.windows, 1), UpToTier(t.windows, 1));
    SubsetIsSmaller(t'.windows.Keys, t.windows.Keys);
  }

  /** What each degree of crowding says about the room left. */
  lemma CrowdingLeavesRoom(n: nat)
    ensures n * 4 / CAP <= 1 ==> n < CAP / 2
    ensures n * 4 / CAP <= 2 ==> n < CAP / 4 * 3
    ensures n * 4 / CAP <= 3 ==> n < CAP
  {
  }

  lemma InsertKeepsTiers(t: Table, key: Key, w: FailWindow)
    requires TiersOk(t) && key !in t.windows && |t.windows| * 4 / CAP < 4
    requires Tier(key) == if |t.windows| * 4 / CAP <= 1 then 0 else |t.windows| * 4 / CAP - 1
    ensures TiersOk(t.(windows := t.windows[key := w]))
  {
    var windows' := t.windows[key := w];
    assert windows'.Keys == t.windows.Keys + {key};
    assert UpToTier(windows', 0) == if Tier(key) == 0 then UpToTier(t.windows, 0) + {key} else UpToTier(t.windows, 0);
    assert UpToTier(windows', 1) == if Tier(key) <= 1 then UpToTier(t.windows, 1) + {key} else UpToTier(t.windows, 1);
    SubsetIsSmaller(UpToTier(t.windows, 0), t.windows.Keys);
    SubsetIsSmaller(UpToTier(t.windows, 1), t.windows.Keys);
    CrowdingLeavesRoom(|t.windows|);
    OneMore(UpToTier(t.windows, 0), key);
    OneMore(UpToTier(t.windows, 1), key);
    OneMore(t.windows.Keys, key);
  }

  lemma OneMore<T>(s: set<T>, x: T)
    requires x !in s
    ensures |s + {x}| == |s| + 1
  {
  }

  lemma AdmitKeepsTiers(cooldown: nat, t: Table, ip: IpAddr, guess: Option<nat>, now: nat)
    requires TiersOk(t)
    ensures TiersOk(Admit(cooldown, t, ip, guess, now).1)
  {
    var keys := KeysOf(ip);
    var t' := Admit(cooldown, t, ip, guess, now).1;
    if cooldown > 0 && Tracked(t.windows, keys).None? {
      var swept := Sweep(t, now, cooldown);
      FewerKeysKeepTiers(t, swept);
      var crowding := |swept.windows| * 4 / CAP;
      if crowding < 4 && guess.Some? {
        var key := if crowding <= 1 then keys[0] else keys[crowding - 1];
        assert key in keys;
        InsertKeepsTiers(swept, key, t'.windows[key]);
      }
    } else {
      FewerKeysKeepTiers(t, t');
    }
  }

  lemma EventKeepsTiers(cooldown: nat, s: System, e: Event)
    requires TiersOk(s.table) && Possible(s, e)
    ensures TiersOk(After(cooldown, s, e).table)
  {
    match e
    case AdmitEvent(ip, guess, now) => AdmitKeepsTiers(cooldown, s.table, ip, guess, now);
    case SettleEvent(key, fp, failed, now) =>
      FewerKeysKeepTiers(s.table, Release(cooldown, s.table, key, fp, failed, now));
  }

  /** In every reachable state, lone addresses take at most half the table, addresses and
      middle networks together at most three quarters, and the table never outgrows its
      cap. */
  lemma {:induction false} TableStaysTiered(cooldown: nat, states: seq<System>, events: seq<Event>, i: nat)
    requires IsRun(cooldown, states, events) && i <= |events|
    ensures TiersOk(states[i].table)
    decreases i
  {
    if i == 0 {
      assert UpToTier(map[], 0) == {} && UpToTier(map[], 1) == {};
    } else {
      TableStaysTiered(cooldown, states, events, i - 1);
      assert Follows(cooldown, states, events, i - 1);
      EventKeepsTiers(cooldown, states[i - 1], events[i - 1]);
    }
  }

  /** A full table within its tier bounds holds a quarter of its cap in coarsest networks. */
  lemma FullTableHasManyNetworks(t: Table)
    requires TiersOk(t) && |t.windows| == CAP
    ensures |set k | k in t.windows && Tier(k) == 2| >= CAP / 4
  {
    var coarse := set k | k in t.windows && Tier(k) == 2;
    assert t.windows.Keys == UpToTier(t.windows, 1) + coarse;
    assert |t.windows.Keys| == |UpToTier(t.windows, 1)| + |coarse|;
  }

  lemma RefusedOnlyWhenFull(cooldown: nat, t: Table, ip: IpAddr, guess: Option<nat>, now: nat)
    requires TiersOk(t) && cooldown > 0 && Tracked(t.windows, KeysOf(ip)).None?
    requires Admit(cooldown, t, ip, guess, now).0.Refused?
    ensures |Admit(cooldown, t, ip, guess, now).1.windows| == CAP
  {
    AdmitKeepsTiers(cooldown, t, ip, guess, now);
  }

  /** An untracked address is refused only when the table, even after its sweep, is full
      and at least a quarter of it are distinct networks of the coarsest size. */
  lemma FullnessTakesManyNetworks(cooldown: nat, states: seq<System>, events: seq<Event>, i: nat, ip: IpAddr,
                                  guess: Option<nat>, now: nat)
    requires IsRun(cooldown, states, events) && i <= |events| && cooldown > 0
    requires Tracked(states[i].table.windows, KeysOf(ip)).None?
    requires Admit(cooldown, states[i].table, ip, guess, now).0.Refused?
    ensures var t := Admit(cooldown, states[i].table, ip, guess, now).1;
            && |t.windows| == CAP
            && |set k | k in t.windows && Tier(k) == 2| >= CAP / 4
  {
    TableStaysTiered(cooldown, states, events, i);
    AdmitKeepsTiers(cooldown, states[i].table, ip, guess, now);
    RefusedOnlyWhenFull(cooldown, states[i].table, ip, guess, now);
    FullTableHasManyNetworks(Admit(cooldown, states[i].table, ip, guess, now).1);
  }

  // ----- A refusal says nothing about the credential ------------------------------------------------

  /** The credential is not in flight under the network that counts the address. */
  predicate NotInFlight(t: Table, ip: IpAddr, fp: nat) {
    match Tracked(t.windows, KeysOf(ip))
    case None => true
    case Some(key) => SlotFor(t.windows[key].pending, fp) == |t.windows[key].pending|
  }

  /** From any table state, a valid credential and a wrong one not already in flight from
      the same address get the same verdict, the same retry time and the same counting
      key; and a refusal never says to retry at once. */
  lemma RefusalRevealsNothing(cooldown: nat, t: Table, ip: IpAddr, fp: nat, now: nat)
    requires NotInFlight(t, ip, fp)
    ensures Admit(cooldown, t, ip, Some(fp), now).0 == Admit(cooldown, t, ip, None, now).0
    ensures Admit(cooldown, t, ip, None, now).0.Refused? ==> Admit(cooldown, t, ip, None, now).0.secs > 0
  {
  }
}
