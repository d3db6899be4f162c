/** The brute-force bound for one address, whichever of its networks counts it at the time:
    a change of counting network gives no extra guesses. */
module ThrottleAddresses {
  import opened Prelude
  import opened ThrottleKeys
  import opened LoginThrottle
  import opened ThrottleRuns
  import opened ThrottleBounds
  import opened ThrottleLockouts

  /** The event counts a failure on the key that counts `ip` just then. */
  predicate CountsAgainst(s: System, e: Event, ip: IpAddr) {
    && e.SettleEvent? && CountedUnder(s.table, ip, e.key)
    && e.key in s.table.windows && Counts(s.table.windows[e.key], e.fp, e.failed)
  }

  /** The times of the failures counted against `ip` in the first `i` events. */
  function FailuresAgainst(states: seq<System>, events: seq<Event>, ip: IpAddr, i: nat): seq<nat>
    requires i <= |events| < |states|
  {
    if i == 0 then []
    else
      FailuresAgainst(states, events, ip, i - 1) +
      (if CountsAgainst(states[i - 1], events[i - 1], ip) then [events[i - 1].now] else [])
  }

  /** From `cut` on, the address's failures are the last ones of the key that counts it;
      what came before was forgiven by then. */
  ghost predicate Joins(times: seq<nat>, cut: nat, onKey: seq<nat>, clock: nat, cooldown: nat) {
    && cut <= |times| && |times| - cut <= |onKey|
    && (forall i :: cut <= i < |times| ==> times[i] == onKey[|onKey| - |times| + i])
    && (cut == |times| ==> Forgiven(times, clock, cooldown))
    && (0 < cut < |times| ==> times[cut] >= SatAdd(times[cut - 1], cooldown))
  }

  ghost predicate AddressOk(cooldown: nat, s: System, ip: IpAddr, times: seq<nat>) {
    && Ordered(times, s.clock) && Spaced(times, cooldown)
    && match Tracked(s.table.windows, KeysOf(ip))
       case None => Forgiven(times, s.clock, cooldown)
       case Some(k) => exists cut: nat :: Joins(times, cut, FailuresOn(s, k), s.clock, cooldown)
  }

  // ----- The counting key changes only when its failures are forgiven ------------------------------------

  lemma JoinsLater(times: seq<nat>, cut: nat, onKey: seq<nat>, clock: nat, now: nat, cooldown: nat)
    requires Joins(times, cut, onKey, clock, cooldown) && clock <= now
    ensures Joins(times, cut, onKey, now, cooldown)
  {
  }

  /** Once the key's failures are forgiven, so are the address's. */
  lemma JoinsForgiven(times: seq<nat>, cut: nat, onKey: seq<nat>, clock: nat, cooldown: nat)
    requires Joins(times, cut, onKey, clock, cooldown) && Forgiven(onKey, clock, cooldown)
    ensures Forgiven(times, clock, cooldown)
  {
  }

  /** Forgiven failures join any key. */
  lemma ForgivenIsOk(cooldown: nat, s: System, ip: IpAddr, times: seq<nat>)
    requires Ordered(times, s.clock) && Spaced(times, cooldown) && Forgiven(times, s.clock, cooldown)
    ensures AddressOk(cooldown, s, ip, times)
  {
    match Tracked(s.table.windows, KeysOf(ip))
    case None =>
    case Some(k) => assert Joins(times, |times|, FailuresOn(s, k), s.clock, cooldown);
  }

  lemma AdmitKeepsAddress(cooldown: nat, s: System, e: Event, ip: IpAddr, times: seq<nat>)
    requires e.AdmitEvent? && s.clock <= e.now && AddressOk(cooldown, s, ip, times)
    requires forall k :: k in KeysOf(ip) ==> KeyOk(cooldown, After(cooldown, s, e), k)
    ensures AddressOk(cooldown, After(cooldown, s, e), ip, times)
  {
    var s' := After(cooldown, s, e);
    match Tracked(s.table.windows, KeysOf(ip))
    case None => ForgivenIsOk(cooldown, s', ip, times);
    case Some(k) =>
      var cut: nat :| Joins(times, cut, FailuresOn(s, k), s.clock, cooldown);
      JoinsLater(times, cut, FailuresOn(s, k), s.clock, e.now, cooldown);
      if k in s'.table.windows {
        AdmitAddsOwnKey(cooldown, s.table, e.ip, e.guess, e.now);
        StaysCounted(s.table, s'.table, ip, k, e.ip);
      } else {
        assert KeyOk(cooldown, s', k);
        JoinsForgiven(times, cut, FailuresOn(s, k), e.now, cooldown);
        ForgivenIsOk(cooldown, s', ip, times);
      }
  }

  // ----- A counted failure keeps six of them apart ----------------------------------------------------------

  lemma JoinedSpaced(times: seq<nat>, cut: nat, onKey: seq<nat>, clock: nat, now: nat, cooldown: nat)
    requires Joins(times, cut, onKey, clock, cooldown) && clock <= now
    requires Ordered(times, clock) && Spaced(times, cooldown) && Spaced(onKey + [now], cooldown)
    ensures Spaced(times + [now], cooldown)
  {
    var n := |times|;
    if n >= FAIL_LIMIT {
      var first := n - FAIL_LIMIT;
      if first >= cut {
        var all := onKey + [now];
        assert all[|onKey| - FAIL_LIMIT] == times[first] && all[|onKey|] == now;
      } else {
        assert times[first] <= times[cut - 1];
        assert cut < n ==> times[cut] <= now;
      }
    }
  }

  lemma JoinsMore(times: seq<nat>, cut: nat, onKey: seq<nat>, clock: nat, now: nat, cooldown: nat)
    requires Joins(times, cut, onKey, clock, cooldown) && clock <= now && Ordered(times, clock)
    ensures Joins(times + [now], cut, onKey + [now], now, cooldown)
  {
  }

  /** The key that counts an address depends only on which keys are tracked. */
  lemma {:induction false} TrackedByKeys(windows: map<Key, FailWindow>, windows': map<Key, FailWindow>, keys: seq<Key>)
    requires windows.Keys == windows'.Keys
    ensures Tracked(windows, keys) == Tracked(windows', keys)
  {
    if keys != [] {
      TrackedByKeys(windows, windows', keys[1..]);
    }
  }

  /** A settlement leaves the tracked keys alone and adds at most one failure to one key. */
  lemma SettleShape(cooldown: nat, s: System, e: Event, ip: IpAddr)
    requires e.SettleEvent? && Possible(s, e)
    ensures var s' := After(cooldown, s, e);
      && s'.clock == e.now && Tracked(s'.table.windows, KeysOf(ip)) == Tracked(s.table.windows, KeysOf(ip))
      && forall k :: CountedUnder(s.table, ip, k) ==>
           FailuresOn(s', k) == if CountsAgainst(s, e, ip) then FailuresOn(s, k) + [e.now] else FailuresOn(s, k)
  {
    var s' := After(cooldown, s, e);
    TrackedByKeys(s.table.windows, s'.table.windows, KeysOf(ip));
  }

  /** What a settlement does to the failures of an address that `k` counts. */
  lemma JoinedKeeps(times: seq<nat>, onKey: seq<nat>, clock: nat, now: nat, cooldown: nat, counts: bool, cut: nat)
    requires Joins(times, cut, onKey, clock, cooldown) && clock <= now && Ordered(times, clock)
             && Spaced(times, cooldown)
    requires counts ==> Spaced(onKey + [now], cooldown)
    ensures var times' := if counts then times + [now] else times; var onKey' := if counts then onKey + [now]
            else onKey;
            Ordered(times', now) && Spaced(times', cooldown) && Joins(times', cut, onKey', now, cooldown)
  {
    OrderedGrows(times, clock, now);
    if counts {
      JoinedSpaced(times, cut, onKey, clock, now, cooldown);
      JoinsMore(times, cut, onKey, clock, now, cooldown);
    } else {
      JoinsLater(times, cut, onKey, clock, now, cooldown);
    }
  }

  lemma CountedKeepsAddress(cooldown: nat, s: System, s': System, ip: IpAddr, k: Key, times: seq<nat>, counts: bool)
    requires AddressOk(cooldown, s, ip, times) && s.clock <= s'.clock
    requires CountedUnder(s.table, ip, k) && CountedUnder(s'.table, ip, k)
    requires FailuresOn(s', k) == if counts then FailuresOn(s, k) + [s'.clock] else FailuresOn(s, k)
    requires Spaced(FailuresOn(s', k), cooldown)
    ensures AddressOk(cooldown, s', ip, if counts then times + [s'.clock] else times)
  {
    var cut: nat :| Joins(times, cut, FailuresOn(s, k), s.clock, cooldown);
    JoinedKeeps(times, FailuresOn(s, k), s.clock, s'.clock, cooldown, counts, cut);
    assert Joins(if counts then times + [s'.clock] else times, cut, FailuresOn(s', k), s'.clock, cooldown);
  }

  lemma SettleKeepsAddress(cooldown: nat, s: System, e: Event, ip: IpAddr, times: seq<nat>)
    requires e.SettleEvent? && Possible(s, e) && s.clock <= e.now && AddressOk(cooldown, s, ip, times)
    requires forall k :: k in KeysOf(ip) ==> KeyOk(cooldown, After(cooldown, s, e), k)
    ensures AddressOk(cooldown, After(cooldown, s, e), ip, if CountsAgainst(s, e, ip) then times + [e.now] else times)
  {
    var s' := After(cooldown, s, e);
    SettleShape(cooldown, s, e, ip);
    match Tracked(s.table.windows, KeysOf(ip))
    case None => ForgivenIsOk(cooldown, s', ip, times);
    case Some(k) =>
      assert KeyOk(cooldown, s', k) && CountedUnder(s.table, ip, k);
      CountedKeepsAddress(cooldown, s, s', ip, k, times, CountsAgainst(s, e, ip));
  }

  // ----- An address's own guesses count against it ---------------------------------------------------------

  /** The key a wrong credential is admitted under counts the address from then on. */
  lemma AdmittedIsCounted(cooldown: nat, t: Table, ip: IpAddr, fp: nat, now: nat)
    requires cooldown > 0 && Admit(cooldown, t, ip, Some(fp), now).0.Admitted?
    ensures var (verdict, t') := Admit(cooldown, t, ip, Some(fp), now); CountedUnder(t', ip, verdict.key)
  {
    var keys := KeysOf(ip);
    var (verdict, t') := Admit(cooldown, t, ip, Some(fp), now);
    match Tracked(t.windows, keys)
    case None =>
      assert keys[0] in keys && keys[1] in keys && keys[2] in keys;
      var crowding := |Sweep(t, now, cooldown).windows| * 4 / CAP;
      FirstIsTracked(t'.windows, keys, if crowding <= 1 then 0 else crowding - 1);
    case Some(key) => TrackedByKeys(t.windows, t'.windows, keys);
  }

  lemma EventKeepsCountedKey(cooldown: nat, s: System, e: Event, ip: IpAddr, k: Key)
    requires Possible(s, e) && CountedUnder(s.table, ip, k) && k in After(cooldown, s, e).table.windows
    ensures CountedUnder(After(cooldown, s, e).table, ip, k)
  {
    if e.AdmitEvent? {
      AdmitAddsOwnKey(cooldown, s.table, e.ip, e.guess, e.now);
      StaysCounted(s.table, After(cooldown, s, e).table, ip, k, e.ip);
    } else {
      TrackedByKeys(s.table.windows, After(cooldown, s, e).table.windows, KeysOf(ip));
    }
  }

  /** A guess admitted under a key settles while that key still counts the address: the
      address's own failures are always among those counted against it. */
  lemma {:induction false} OwnGuessCounts(cooldown: nat, states: seq<System>, events: seq<Event>, ip: IpAddr, fp: nat,
                                          i: nat, j: nat, k: Key)
    requires cooldown > 0 && IsRun(cooldown, states, events) && i < j <= |events|
    requires events[i].AdmitEvent? && events[i].ip == ip && events[i].guess == Some(fp)
    requires Admit(cooldown, states[i].table, ip, Some(fp), events[i].now).0 == Admitted(k)
    requires forall m :: i < m <= j ==> states[m].held[(k, fp)] > 0
    ensures CountedUnder(states[j].table, ip, k)
    decreases j
  {
    if j == i + 1 {
      CountedOnAdmission(cooldown, states, events, i, fp);
    } else {
      OwnGuessCounts(cooldown, states, events, ip, fp, i, j - 1, k);
      HeldStaysCounted(cooldown, states, events, ip, fp, j - 1, k);
    }
  }

  lemma CountedOnAdmission(cooldown: nat, states: seq<System>, events: seq<Event>, i: nat, fp: nat)
    requires cooldown > 0 && IsRun(cooldown, states, events) && i < |events|
    requires events[i].AdmitEvent? && events[i].guess == Some(fp)
    requires Admit(cooldown, states[i].table, events[i].ip, Some(fp), events[i].now).0.Admitted?
    ensures var verdict := Admit(cooldown, states[i].table, events[i].ip, Some(fp), events[i].now).0;
            CountedUnder(states[i + 1].table, events[i].ip, verdict.key)
  {
    assert Follows(cooldown, states, events, i);
    AdmittedIsCounted(cooldown, states[i].table, events[i].ip, fp, events[i].now);
  }

  lemma HeldStaysCounted(cooldown: nat, states: seq<System>, events: seq<Event>, ip: IpAddr, fp: nat, m: nat, k: Key)
    requires cooldown > 0 && IsRun(cooldown, states, events) && m < |events|
    requires CountedUnder(states[m].table, ip, k) && states[m + 1].held[(k, fp)] > 0
    ensures CountedUnder(states[m + 1].table, ip, k)
  {
    SlotsMatchAttempts(cooldown, states, events, m + 1, k, fp);
    assert Follows(cooldown, states, events, m);
    EventKeepsCountedKey(cooldown, states[m], events[m], ip, k);
  }

  // ----- Runs -------------------------------------------------------------------------------------------------

  /** No full-map sweep sheds the count of any network of the address. */
  ghost predicate NeverShed(cooldown: nat, s: System, e: Event, ip: IpAddr) {
    s.clock <= e.now && forall k :: k in KeysOf(ip) ==> !Sheds(cooldown, s, e, k)
  }

  lemma RunKeepsKeys(cooldown: nat, states: seq<System>, events: seq<Event>, ip: IpAddr, i: nat)
    requires cooldown > 0 && IsRun(cooldown, states, events) && i <= |events|
    requires forall m :: 0 <= m < i ==> NeverShed(cooldown, states[m], events[m], ip)
    ensures forall k :: k in KeysOf(ip) ==> KeyOk(cooldown, states[i], k)
  {
    forall k | k in KeysOf(ip)
      ensures KeyOk(cooldown, states[i], k)
    {
      RunKeepsKey(cooldown, states, events, k, i);
    }
  }

  lemma AddressAfter(cooldown: nat, states: seq<System>, events: seq<Event>, ip: IpAddr, i: nat, times: seq<nat>)
    requires cooldown > 0 && IsRun(cooldown, states, events) && i < |events| && states[i].clock <= events[i].now
    requires AddressOk(cooldown, states[i], ip, times)
    requires forall k :: k in KeysOf(ip) ==> KeyOk(cooldown, states[i + 1], k)
    ensures AddressOk(cooldown, states[i + 1], ip,
                      times + (if CountsAgainst(states[i], events[i], ip) then [events[i].now] else []))
  {
    assert Follows(cooldown, states, events, i);
    if events[i].AdmitEvent? {
      AdmitKeepsAddress(cooldown, states[i], events[i], ip, times);
    } else {
      SettleKeepsAddress(cooldown, states[i], events[i], ip, times);
    }
    assert times + [] == times;
  }

  lemma {:induction false} RunKeepsAddress(cooldown: nat, states: seq<System>, events: seq<Event>, ip: IpAddr, i: nat)
    requires cooldown > 0 && IsRun(cooldown, states, events) && i <= |events|
    requires forall m :: 0 <= m < i ==> NeverShed(cooldown, states[m], events[m], ip)
    ensures AddressOk(cooldown, states[i], ip, FailuresAgainst(states, events, ip, i))
    decreases i
  {
    if i > 0 {
      RunKeepsAddress(cooldown, states, events, ip, i - 1);
      RunKeepsKeys(cooldown, states, events, ip, i);
      AddressAfter(cooldown, states, events, ip, i - 1, FailuresAgainst(states, events, ip, i - 1));
    }
  }

  /** With a clock that never goes back, and no full-map sweep shedding a count of the
      address's networks, any six failures counted on whichever of them counted the address
      at the time span at least the cooldown. */
  lemma SixGuessesSpanTheCooldown(cooldown: nat, states: seq<System>, events: seq<Event>, ip: IpAddr, a: nat, b: nat)
    requires cooldown > 0 && IsRun(cooldown, states, events)
    requires forall m :: 0 <= m < |events| ==> NeverShed(cooldown, states[m], events[m], ip)
    requires a + FAIL_LIMIT <= b < |FailuresAgainst(states, events, ip, |events|)|
    ensures var times := FailuresAgainst(states, events, ip, |events|); times[b] >= SatAdd(times[a], cooldown)
  {
    RunKeepsAddress(cooldown, states, events, ip, |events|);
    var times := FailuresAgainst(states, events, ip, |events|);
    assert times[b - FAIL_LIMIT] >= times[a];
    assert times[b] >= SatAdd(times[b - FAIL_LIMIT], cooldown);
  }
}
