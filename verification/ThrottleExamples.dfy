/** A run of the throttle in which a full-map sweep sheds a running count, and the key then
    fails six times within the cooldown. */
module ThrottleExamples {
  import opened Prelude
  import opened ThrottleKeys
  import opened LoginThrottle
  import opened ThrottleRuns

  const COOLDOWN: nat := 300_000

  // ----- Building runs ---------------------------------------------------------------------------

  /** A run whose clock never goes back. */
  ghost predicate RunTo(states: seq<System>, events: seq<Event>, s: System) {
    && IsRun(COOLDOWN, states, events) && states[|events|] == s
    && forall i :: 0 <= i < |events| ==> states[i].clock <= events[i].now
  }

  ghost predicate Reached(s: System) {
    exists states, events :: RunTo(states, events, s)
  }

  lemma Begin()
    ensures Reached(START)
  {
    assert RunTo([START], [], START);
  }

  ghost predicate StepTo(s: System, e: Event, s': System) {
    Possible(s, e) && s' == After(COOLDOWN, s, e)
  }

  lemma Append(states: seq<System>, events: seq<Event>, s: System, e: Event, s': System)
    requires RunTo(states, events, s) && StepTo(s, e, s') && s.clock <= e.now
    ensures RunTo(states + [s'], events + [e], s')
  {
    var states', events' := states + [s'], events + [e];
    forall i | 0 <= i < |events'|
      ensures Follows(COOLDOWN, states', events', i) && states'[i].clock <= events'[i].now
    {
      assert i < |events| ==> Follows(COOLDOWN, states, events, i);
      assert states'[i] == states[i] && (i < |events| ==> states'[i + 1] == states[i + 1] && events'[i] == events[i]);
      assert StepTo(states'[i], events'[i], states'[i + 1]);
    }
  }

  lemma Go(s: System, e: Event)
    requires Reached(s) && Possible(s, e) && s.clock <= e.now
    ensures Reached(After(COOLDOWN, s, e))
  {
    var states, events :| RunTo(states, events, s);
    Append(states, events, s, e, After(COOLDOWN, s, e));
  }

  // ----- Addresses that share no network -----------------------------------------------------------

  function Address(j: nat): IpAddr {
    V6(j + 1, 0, 0, 0, 0, 0, 0, 0)
  }

  lemma AddressKeys(j: nat)
    ensures KeysOf(Address(j)) == [Key(V6(j + 1, 0, 0, 0, 0, 0, 0, 0), 64), Key(V6(j + 1, 0, 0, 0, 0, 0, 0, 0), 48),
                                   Key(V6(j + 1, 0, 0, 0, 0, 0, 0, 0), 32)]
  {
  }

  /** No network of an address from the `m`-th on is tracked. */
  ghost predicate Unused(t: Table, m: nat) {
    forall j: nat, i :: m <= j && 0 <= i < 3 ==> KeysOf(Address(j))[i] !in t.windows
  }

  lemma UnusedUntracked(t: Table, m: nat, j: nat)
    requires Unused(t, m) && m <= j
    ensures Tracked(t.windows, KeysOf(Address(j))).None?
  {
  }

  /** The address that fails, and the coarsest network around it. */
  const TARGET: nat := 24576

  const K := Key(V6(TARGET + 1, 0, 0, 0, 0, 0, 0, 0), 32)

  // ----- Filling the table -------------------------------------------------------------------------

  /** All at the first instant: `n` keys are tracked, all but `K` with an attempt in flight,
      no finer network of the target among them, and the addresses from the `m`-th on are
      new. */
  ghost predicate Filled(s: System, n: nat, m: nat) {
    && s.clock == 0 && s.table.sweptMs == 0 && |s.table.windows| == n && Unused(s.table, m)
    && KeysOf(Address(TARGET))[0] !in s.table.windows && KeysOf(Address(TARGET))[1] !in s.table.windows
    && forall key :: key in s.table.windows && key != K ==> InFlight(s.table.windows[key].pending) > 0
  }

  /** The window of `K`, and the failures on it, are the same in both. */
  predicate SameTarget(s: System, s': System) {
    && s'.failures == s.failures && (K in s.table.windows <==> K in s'.table.windows)
    && (K in s.table.windows ==> s'.table.windows[K] == s.table.windows[K])
  }

  /** The key a new address is counted under when `n` keys are tracked. */
  function KeyAt(ip: IpAddr, n: nat): Key
    requires n < CAP
  {
    var crowding := n * 4 / CAP;
    if crowding <= 1 then KeysOf(ip)[0] else KeysOf(ip)[crowding - 1]
  }

  const NEW := FailWindow(0, 0, 0, [Pending(1, 1, false), FREE, FREE, FREE, FREE])

  /** A new address with a wrong credential, when no sweep is due. */
  lemma AdmitsNew(s: System, ip: IpAddr, now: nat)
    requires Reached(s) && s.clock <= now && !SweepDue(s.table, now) && |s.table.windows| < CAP
    requires Tracked(s.table.windows, KeysOf(ip)).None?
    ensures var k := KeyAt(ip, |s.table.windows|);
      k !in s.table.windows
      && Reached(System(s.table.(windows := s.table.windows[k := NEW]), s.held + multiset{(k, 1)}, now, s.failures))
  {
    var keys := KeysOf(ip);
    assert keys[0] in keys && keys[1] in keys && keys[2] in keys;
    assert EMPTY_WINDOW.pending[0 := Pending(1, 1, false)] == NEW.pending;
    Go(s, AdmitEvent(ip, Some(1), now));
  }

  lemma FillOne(s: System, n: nat, m: nat) returns (s': System)
    requires Reached(s) && Filled(s, n, m) && n < CAP && m != TARGET
    ensures Reached(s') && Filled(s', n + 1, m + 1) && SameTarget(s, s')
  {
    UnusedUntracked(s.table, m, m);
    AdmitsNew(s, Address(m), 0);
    var key := KeyAt(Address(m), n);
    s' := System(s.table.(windows := s.table.windows[key := NEW]), s.held + multiset{(key, 1)}, 0, s.failures);
    AddressKeys(m);
    AddressKeys(TARGET);
    assert InFlight(NEW.pending) > 0;
    forall j: nat, i | m + 1 <= j && 0 <= i < 3
      ensures KeysOf(Address(j))[i] !in s'.table.windows
    {
      AddressKeys(j);
    }
  }

  lemma {:induction false} Fill(s: System, n: nat, m: nat, more: nat) returns (s': System)
    requires Reached(s) && Filled(s, n, m) && n + more <= CAP && (m + more <= TARGET || TARGET < m)
    ensures Reached(s') && Filled(s', n + more, m + more) && SameTarget(s, s')
    decreases more
  {
    if more == 0 {
      s' := s;
    } else {
      var s1 := FillOne(s, n, m);
      s' := Fill(s1, n + 1, m + 1, more - 1);
    }
  }

  // ----- Failing -----------------------------------------------------------------------------------

  /** `count` failures, the last at `last`, with the credential's slot free again. */
  function Failed(count: nat, last: nat): FailWindow {
    FailWindow(count, last, 0, [Pending(1, 0, true), FREE, FREE, FREE, FREE])
  }

  /** The same with the credential in flight once more. */
  function Guessing(count: nat, last: nat): FailWindow {
    FailWindow(count, last, 0, [Pending(1, 1, false), FREE, FREE, FREE, FREE])
  }

  lemma Settles(s: System, k: Key, count: nat, last: nat, now: nat)
    requires Reached(s) && s.clock <= now && k in s.table.windows && s.table.windows[k] == Guessing(count, last)
    requires s.held[(k, 1)] > 0 && count < 4 && last <= now < last + COOLDOWN
    ensures Reached(System(s.table.(windows := s.table.windows[k := Failed(count + 1, now)]), s.held - multiset{(k, 1)},
                           now, s.failures[k := FailuresOn(s, k) + [now]]))
  {
    var w := s.table.windows[k];
    assert SlotFor(w.pending, 1) == 0;
    assert w.pending[0 := Pending(1, 0, true)] == Failed(count, last).pending;
    assert ReleaseWindow(w, 1, true, now, COOLDOWN) == Failed(count + 1, now);
    Go(s, SettleEvent(k, 1, true, now));
  }

  lemma GuessesAgain(s: System, ip: IpAddr, k: Key, count: nat, now: nat)
    requires Reached(s) && s.clock <= now && Tracked(s.table.windows, KeysOf(ip)) == Some(k)
    requires s.table.windows[k] == Failed(count, s.clock) && count < 4 && now < s.clock + COOLDOWN
    ensures Reached(System(s.table.(windows := s.table.windows[k := Guessing(count, s.clock)]),
                           s.held + multiset{(k, 1)}, now, s.failures))
  {
    var w := s.table.windows[k];
    assert SlotFor(w.pending, 1) == 5 by {
      assert forall i :: 0 <= i < 5 ==> !Holds(w.pending[i], 1);
    }
    assert InFlight(w.pending) == 0 by {
      InFlightBounds(w.pending);
    }
    assert FreeSlot(w.pending) == 0;
    assert w.pending[0 := Pending(1, 1, false)] == Guessing(count, s.clock).pending;
    assert AdmitWindow(w, Some(1), now, COOLDOWN) == Keep(Guessing(count, s.clock));
    Go(s, AdmitEvent(ip, Some(1), now));
  }

  /** One more guess under a tracked key, settled as a failure at once. */
  lemma FailsAgain(s: System, ip: IpAddr, k: Key, count: nat) returns (s': System)
    requires Reached(s) && Tracked(s.table.windows, KeysOf(ip)) == Some(k)
    requires s.table.windows[k] == Failed(count, s.clock) && count < 4
    ensures Reached(s') && s'.clock == s.clock && s'.failures == s.failures[k := FailuresOn(s, k) + [s.clock]]
    ensures s'.table == s.table.(windows := s.table.windows[k := Failed(count + 1, s.clock)])
  {
    GuessesAgain(s, ip, k, count, s.clock);
    var s1 := System(s.table.(windows := s.table.windows[k := Guessing(count, s.clock)]), s.held + multiset{(k, 1)},
                     s.clock, s.failures);
    Settles(s1, k, count, s.clock, s.clock);
    s' := System(s1.table.(windows := s1.table.windows[k := Failed(count + 1, s.clock)]), s1.held - multiset{(k, 1)},
                 s.clock, s1.failures[k := FailuresOn(s1, k) + [s.clock]]);
  }

  /** The first failure under `K`, of a target no network of which is tracked. */
  lemma FailsFirst(s: System, now: nat) returns (s': System)
    requires Reached(s) && s.clock <= now < COOLDOWN && !SweepDue(s.table, now)
    requires |s.table.windows| == 24576 || |s.table.windows| == CAP - 1
    requires forall i :: 0 <= i < 3 ==> KeysOf(Address(TARGET))[i] !in s.table.windows
    ensures Reached(s') && s'.clock == now && s'.failures == s.failures[K := FailuresOn(s, K) + [now]]
    ensures s'.table == s.table.(windows := s.table.windows[K := Failed(1, now)])
  {
    AdmitsNew(s, Address(TARGET), now);
    AddressKeys(TARGET);
    assert KeyAt(Address(TARGET), |s.table.windows|) == K;
    var s1 := System(s.table.(windows := s.table.windows[K := NEW]), s.held + multiset{(K, 1)}, now, s.failures);
    assert NEW == Guessing(0, 0);
    Settles(s1, K, 0, 0, now);
    s' := System(s1.table.(windows := s1.table.windows[K := Failed(1, now)]), s1.held - multiset{(K, 1)},
                 now, s1.failures[K := FailuresOn(s1, K) + [now]]);
  }

  lemma TargetTracked(t: Table)
    requires K in t.windows && KeysOf(Address(TARGET))[0] !in t.windows && KeysOf(Address(TARGET))[1] !in t.windows
    ensures Tracked(t.windows, KeysOf(Address(TARGET))) == Some(K)
  {
    AddressKeys(TARGET);
    var keys := KeysOf(Address(TARGET));
    assert keys[1..][0] == keys[1] && keys[1..][1..][0] == keys[2];
  }

  // ----- The run -------------------------------------------------------------------------------------

  lemma FilledPlusTarget(s0: System, s: System, w: FailWindow)
    requires Filled(s0, TARGET, TARGET) && s.clock == 0 && s.table == s0.table.(windows := s0.table.windows[K := w])
    ensures Filled(s, TARGET + 1, TARGET + 1)
  {
    AddressKeys(TARGET);
    assert KeysOf(Address(TARGET))[2] == K;
    forall j: nat, i | TARGET + 1 <= j && 0 <= i < 3
      ensures KeysOf(Address(j))[i] !in s.table.windows
    {
      AddressKeys(j);
    }
  }

  /** Three failures on top of a first. */
  lemma ThreeMore(s0: System) returns (s: System)
    requires Reached(s0) && s0.clock == 0 && FailuresOn(s0, K) == [0]
    requires Tracked(s0.table.windows, KeysOf(Address(TARGET))) == Some(K) && s0.table.windows[K] == Failed(1, 0)
    requires KeysOf(Address(TARGET))[0] !in s0.table.windows && KeysOf(Address(TARGET))[1] !in s0.table.windows
    ensures Reached(s) && s.clock == 0 && FailuresOn(s, K) == [0, 0, 0, 0]
    ensures s.table == s0.table.(windows := s0.table.windows[K := Failed(4, 0)])
  {
    var s1 := FailsAgain(s0, Address(TARGET), K, 1);
    AddressKeys(TARGET);
    TargetTracked(s1.table);
    var s2 := FailsAgain(s1, Address(TARGET), K, 2);
    TargetTracked(s2.table);
    s := FailsAgain(s2, Address(TARGET), K, 3);
    assert s.table.windows == s0.table.windows[K := Failed(4, 0)];
  }

  /** Four failures under `K` at the first instant, with the table three quarters full. */
  lemma FourFailures() returns (s: System)
    ensures Reached(s) && Filled(s, TARGET + 1, TARGET + 1) && FailuresOn(s, K) == [0, 0, 0, 0]
    ensures K in s.table.windows && s.table.windows[K] == Failed(4, 0)
  {
    Begin();
    var s0 := Fill(START, 0, 0, TARGET);
    AddressKeys(TARGET);
    var s1 := FailsFirst(s0, 0);
    TargetTracked(s1.table);
    s := ThreeMore(s1);
    assert s.table.windows == s0.table.windows[K := Failed(4, 0)];
    FilledPlusTarget(s0, s, Failed(4, 0));
  }

  lemma SweepShedsTarget(s: System)
    requires Filled(s, CAP, CAP) && K in s.table.windows && s.table.windows[K] == Failed(4, 0)
    ensures Sweep(s.table, 1000, COOLDOWN) == Table(s.table.windows - {K}, 1000)
    ensures |s.table.windows - {K}| == CAP - 1
  {
    InFlightBounds(Failed(4, 0).pending);
    assert !Live(s.table.windows[K], 1000);
    assert Sweep(s.table, 1000, COOLDOWN).windows == s.table.windows - {K};
    assert (s.table.windows - {K}).Keys == s.table.windows.Keys - {K};
  }

  /** A full-map sweep, run by a stranger a second later, sheds the count of `K` alone. */
  lemma Shed(s: System) returns (s': System)
    requires Reached(s) && Filled(s, CAP, CAP) && K in s.table.windows && s.table.windows[K] == Failed(4, 0)
    ensures Reached(s') && s'.clock == 1000 && s'.failures == s.failures
    ensures s'.table == Table(s.table.windows - {K}, 1000) && |s'.table.windows| == CAP - 1
  {
    UnusedUntracked(s.table, CAP, CAP);
    SweepShedsTarget(s);
    Strangers(s, Address(CAP));
    s' := System(Table(s.table.windows - {K}, 1000), s.held, 1000, s.failures);
  }

  /** A stranger with the right credential leaves behind only the sweep. */
  lemma Strangers(s: System, ip: IpAddr)
    requires Reached(s) && s.clock <= 1000 && Tracked(s.table.windows, KeysOf(ip)).None?
    ensures Reached(System(Sweep(s.table, 1000, COOLDOWN), s.held, 1000, s.failures))
  {
    Go(s, AdmitEvent(ip, None, 1000));
  }

  /** With its running count shed, one key fails six times within a second. */
  lemma SheddingBreaksTheBound() returns (states: seq<System>, events: seq<Event>)
    ensures IsRun(COOLDOWN, states, events)
    ensures forall i :: 0 <= i < |events| ==> states[i].clock <= events[i].now
    ensures FailuresOn(states[|events|], K) == [0, 0, 0, 0, 1000, 1000]
  {
    var s := FourFailures();
    s := Fill(s, TARGET + 1, TARGET + 1, CAP - TARGET - 1);
    s := Shed(s);
    AddressKeys(TARGET);
    s := FailsFirst(s, 1000);
    TargetTracked(s.table);
    s := FailsAgain(s, Address(TARGET), K, 1);
    states, events :| RunTo(states, events, s);
  }
}
