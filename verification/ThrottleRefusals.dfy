/** Who is refused, and what is forgotten: each exactly when the failures counted so far, the
    wrong credentials still outstanding and the clock say so. */
module ThrottleRefusals {
  import opened Prelude
  import opened ThrottleKeys
  import opened LoginThrottle
  import opened ThrottleRuns
  import opened ThrottleBounds

  /** The wrong credentials admitted on a key and not yet settled. */
  function Outstanding(s: System, k: Key): set<nat> {
    set h | h in s.held && h.0 == k :: h.1
  }

  /** No attempt with this credential is outstanding on the key; a valid one never is. */
  predicate IsNew(s: System, k: Key, guess: Option<nat>) {
    guess.None? || s.held[(k, guess.value)] == 0
  }

  // ----- Slots in use are credentials outstanding ------------------------------------------------------

  function Credentials(ps: seq<Pending>): set<nat> {
    if ps == [] then {} else (if ps[0].refs > 0 then {ps[0].fp} else {}) + Credentials(ps[1..])
  }

  lemma {:induction false} CredentialsAreSlots(ps: seq<Pending>)
    requires DistinctFps(ps)
    ensures |Credentials(ps)| == InFlight(ps)
    ensures forall fp :: fp in Credentials(ps) <==> SlotFor(ps, fp) < |ps|
  {
    if ps != [] {
      var rest := ps[1..];
      CredentialsAreSlots(rest);
      if ps[0].refs > 0 {
        assert forall j :: 0 <= j < |rest| ==> rest[j] == ps[j + 1] && !Holds(rest[j], ps[0].fp);
        assert ps[0].fp !in Credentials(rest);
      }
    }
  }

  /** In a reachable state the slots a key uses are the credentials outstanding on it. */
  lemma InFlightIsOutstanding(s: System, k: Key)
    requires SlotsOk(s) && k in s.table.windows
    ensures InFlight(s.table.windows[k].pending) == |Outstanding(s, k)|
  {
    var ps := s.table.windows[k].pending;
    assert WindowOk(s.table.windows[k]);
    CredentialsAreSlots(ps);
    forall fp: nat ensures fp in Outstanding(s, k) <==> fp in Credentials(ps) {
      assert s.held[(k, fp)] == TableRefs(s.table, k, fp);
      assert fp in Outstanding(s, k) <==> (k, fp) in s.held;
    }
    assert Outstanding(s, k) == Credentials(ps);
  }

  // ----- A tracked address ------------------------------------------------------------------------------

  /** The failures a window still holds against its network. */
  function Unforgiven(w: FailWindow, now: nat, cooldown: nat): nat {
    if now < w.lastMs + cooldown then w.count else 0
  }

  /** The whole seconds until a lockout ends, rounded up; one second without a lockout. */
  predicate SecsFor(w: FailWindow, now: nat, secs: nat) {
    if now < w.blockedUntilMs then secs * 1000 - 1000 < w.blockedUntilMs - now <= secs * 1000 else secs == 1
  }

  lemma WindowRefuses(w: FailWindow, guess: Option<nat>, now: nat, cooldown: nat)
    requires WindowOk(w) && cooldown > 0
    ensures AdmitWindow(w, guess, now, cooldown).Refuse? <==>
              || now < w.blockedUntilMs
              || ((guess.None? || Refs(w.pending, guess.value) == 0)
                  && Unforgiven(w, now, cooldown) + InFlight(w.pending) >= 5)
    ensures AdmitWindow(w, guess, now, cooldown).Drop? <==>
              && guess.None? && w.blockedUntilMs <= now && w.lastMs + cooldown <= now && InFlight(w.pending) == 0
    ensures AdmitWindow(w, guess, now, cooldown).Refuse? ==>
              SecsFor(w, now, AdmitWindow(w, guess, now, cooldown).secs)
  {
  }

  /** In every reachable state an address counted under a tracked network is refused exactly
      when the network is locked out, or the credential is a new one and the failures not yet
      forgiven with the credentials outstanding make five; otherwise it is admitted under that
      network. The network is forgotten exactly when a valid credential finds it neither locked
      out, nor in use, nor holding anything against it. */
  lemma RefusedIff(cooldown: nat, states: seq<System>, events: seq<Event>, i: nat, ip: IpAddr, guess: Option<nat>,
                   now: nat, k: Key)
    requires cooldown > 0 && IsRun(cooldown, states, events) && i <= |events|
    requires Tracked(states[i].table.windows, KeysOf(ip)) == Some(k)
    ensures var s, w := states[i], states[i].table.windows[k];
      var (verdict, t) := Admit(cooldown, s.table, ip, guess, now);
      && (verdict.Refused? <==>
            || now < w.blockedUntilMs
            || (IsNew(s, k, guess) && Unforgiven(w, now, cooldown) + |Outstanding(s, k)| >= 5))
      && (if verdict.Refused? then SecsFor(w, now, verdict.secs) else verdict == Admitted(k))
      && (k !in t.windows <==>
            guess.None? && w.blockedUntilMs <= now && w.lastMs + cooldown <= now && Outstanding(s, k) == {})
  {
    var s := states[i];
    RunSlots(cooldown, states, events, i);
    InFlightIsOutstanding(s, k);
    assert WindowOk(s.table.windows[k]);
    WindowRefuses(s.table.windows[k], guess, now, cooldown);
    if guess.Some? {
      assert s.held[(k, guess.value)] == TableRefs(s.table, k, guess.value);
    }
  }

  // ----- What a refusal takes ------------------------------------------------------------------------------

  /** The failure at `j` is the fifth in a row, each within the cooldown of the one before. */
  ghost predicate Fifth(times: seq<nat>, j: nat, cooldown: nat) {
    4 <= j < |times| && forall m :: j - 4 < m <= j ==> times[m] < times[m - 1] + cooldown
  }

  /** Some fifth failure's lockout ends at `until`. */
  ghost predicate LockoutFrom(times: seq<nat>, until: nat, cooldown: nat) {
    exists j: nat :: Fifth(times, j, cooldown) && until == SatAdd(times[j], cooldown)
  }

  /** The last `n` failures came each within the cooldown of the next, the last within it of now. */
  ghost predicate Fresh(times: seq<nat>, n: nat, now: nat, cooldown: nat) {
    Streak(times, n, cooldown) && (n > 0 ==> now < times[|times| - 1] + cooldown)
  }

  ghost predicate LockoutsHaveCause(cooldown: nat, s: System, k: Key) {
    k in s.table.windows && s.table.windows[k].blockedUntilMs > 0 ==>
      LockoutFrom(FailuresOn(s, k), s.table.windows[k].blockedUntilMs, cooldown)
  }

  lemma MoreFailuresKeepLockout(times: seq<nat>, times': seq<nat>, until: nat, cooldown: nat)
    requires LockoutFrom(times, until, cooldown) && times <= times'
    ensures LockoutFrom(times', until, cooldown)
  {
    var j: nat :| Fifth(times, j, cooldown) && until == SatAdd(times[j], cooldown);
    assert Fifth(times', j, cooldown);
  }

  lemma NewWindowNotLocked(cooldown: nat, s: System, e: Event, k: Key)
    requires Possible(s, e) && k !in s.table.windows && k in After(cooldown, s, e).table.windows
    ensures After(cooldown, s, e).table.windows[k].blockedUntilMs == 0
  {
  }

  lemma StreakEndsInFifth(times: seq<nat>, cooldown: nat)
    requires Streak(times, 5, cooldown)
    ensures Fifth(times, |times| - 1, cooldown)
  {
  }

  /** Every lockout in force comes from a fifth failure in a row and ends a cooldown after it. */
  lemma {:induction false} LockoutHasCause(cooldown: nat, states: seq<System>, events: seq<Event>, k: Key, i: nat)
    requires cooldown > 0 && IsRun(cooldown, states, events) && i <= |events|
    requires forall m :: 0 <= m < i ==> states[m].clock <= events[m].now && !Sheds(cooldown, states[m], events[m], k)
    ensures LockoutsHaveCause(cooldown, states[i], k)
    decreases i
  {
    if i > 0 && k in states[i].table.windows {
      var s, e, s' := states[i - 1], events[i - 1], states[i];
      LockoutHasCause(cooldown, states, events, k, i - 1);
      assert Follows(cooldown, states, events, i - 1);
      if k !in s.table.windows {
        NewWindowNotLocked(cooldown, s, e, k);
      } else if s'.table.windows[k].blockedUntilMs == s.table.windows[k].blockedUntilMs {
        if s.table.windows[k].blockedUntilMs > 0 {
          MoreFailuresKeepLockout(FailuresOn(s, k), FailuresOn(s', k), s.table.windows[k].blockedUntilMs, cooldown);
        }
      } else {
        FreshLockout(cooldown, states, events, k, i);
      }
    }
  }

  /** What engages a lockout counts as a failure. */
  lemma LockoutCounts(cooldown: nat, s: System, e: Event, k: Key)
    requires Possible(s, e) && k in s.table.windows && k in After(cooldown, s, e).table.windows
    requires After(cooldown, s, e).table.windows[k].blockedUntilMs != s.table.windows[k].blockedUntilMs
    ensures FailuresOn(After(cooldown, s, e), k) == FailuresOn(s, k) + [e.now]
  {
    LockoutTakesASettlement(cooldown, s, e, k);
  }

  lemma FreshLockout(cooldown: nat, states: seq<System>, events: seq<Event>, k: Key, i: nat)
    requires cooldown > 0 && IsRun(cooldown, states, events) && 0 < i <= |events|
    requires forall m :: 0 <= m < i ==> states[m].clock <= events[m].now && !Sheds(cooldown, states[m], events[m], k)
    requires k in states[i - 1].table.windows && k in states[i].table.windows
    requires states[i].table.windows[k].blockedUntilMs != states[i - 1].table.windows[k].blockedUntilMs
    ensures LockoutFrom(FailuresOn(states[i], k), states[i].table.windows[k].blockedUntilMs, cooldown)
  {
    var times := FailuresOn(states[i], k);
    assert Follows(cooldown, states, events, i - 1);
    LockoutTakesFiveCloseFailures(cooldown, states, events, k, i - 1);
    StreakEndsInFifth(times, cooldown);
    LockoutCounts(cooldown, states[i - 1], events[i - 1], k);
    assert Fifth(times, |times| - 1, cooldown) && times[|times| - 1] == events[i - 1].now;
  }

  /** Nobody counted under a network is refused without cause: a fifth failure in a row on the
      network less than a cooldown ago, or a new credential where failures in a row, the last
      less than a cooldown ago, and credentials outstanding make five. */
  lemma RefusalHasCause(cooldown: nat, states: seq<System>, events: seq<Event>, i: nat, ip: IpAddr, guess: Option<nat>,
                        now: nat, k: Key)
    requires cooldown > 0 && IsRun(cooldown, states, events) && i <= |events|
    requires forall m :: 0 <= m < i ==> states[m].clock <= events[m].now && !Sheds(cooldown, states[m], events[m], k)
    requires Tracked(states[i].table.windows, KeysOf(ip)) == Some(k)
    requires Admit(cooldown, states[i].table, ip, guess, now).0.Refused?
    ensures var s, times := states[i], FailuresOn(states[i], k);
      || (exists until: nat :: now < until && LockoutFrom(times, until, cooldown))
      || (IsNew(s, k, guess) && exists n: nat :: Fresh(times, n, now, cooldown) && n + |Outstanding(s, k)| >= 5)
  {
    var s, w, times := states[i], states[i].table.windows[k], FailuresOn(states[i], k);
    RefusedIff(cooldown, states, events, i, ip, guess, now, k);
    if now < w.blockedUntilMs {
      LockoutHasCause(cooldown, states, events, k, i);
      assert LockoutFrom(times, w.blockedUntilMs, cooldown);
    } else {
      RunKeepsKey(cooldown, states, events, k, i);
      assert Accounts(w, times, s.clock, cooldown);
      assert Fresh(times, Unforgiven(w, now, cooldown), now, cooldown);
    }
  }

  // ----- An address of no tracked network ----------------------------------------------------------------------

  /** A window that holds one attempt with one credential, and nothing against its network. */
  ghost predicate JustBegun(w: FailWindow, fp: nat) {
    w.count == 0 && w.blockedUntilMs == 0 && forall g :: Refs(w.pending, g) == if g == fp then 1 else 0
  }

  lemma BegunHoldsOne(fp: nat)
    ensures JustBegun(EMPTY_WINDOW.(pending := EMPTY_WINDOW.pending[0 := Pending(fp, 1, false)]), fp)
  {
    var ps := EMPTY_WINDOW.pending[0 := Pending(fp, 1, false)];
    assert forall i :: 0 < i < 5 ==> ps[i].refs == 0;
  }

  /** The fuller the table, once swept, the coarser the network a new address is counted under;
      a full one refuses it for the cooldown, in whole seconds. */
  lemma CrowdingChoosesNetwork(cooldown: nat, t: Table, ip: IpAddr, guess: Option<nat>, now: nat)
    requires cooldown > 0 && Tracked(t.windows, KeysOf(ip)).None?
    ensures var n, verdict := |Sweep(t, now, cooldown).windows|, Admit(cooldown, t, ip, guess, now).0;
      && (n < 16384 ==> verdict == Admitted(KeysOf(ip)[0]))
      && (16384 <= n < 24576 ==> verdict == Admitted(KeysOf(ip)[1]))
      && (24576 <= n < 32768 ==> verdict == Admitted(KeysOf(ip)[2]))
      && (32768 <= n ==> verdict.Refused? && verdict.secs * 1000 - 1000 < cooldown <= verdict.secs * 1000)
  {
  }

  /** A wrong credential admitted under an untracked network begins a window; apart from the
      sweep nothing else changes. */
  lemma NewAddressLeaves(cooldown: nat, t: Table, ip: IpAddr, guess: Option<nat>, now: nat)
    requires cooldown > 0 && Tracked(t.windows, KeysOf(ip)).None?
    ensures Leaves(Sweep(t, now, cooldown), Admit(cooldown, t, ip, guess, now), guess)
  {
    NewKeysLeave(t, KeysOf(ip), guess, now, cooldown);
  }

  /** From the swept table `t`: the verdict and the table it leaves. */
  ghost predicate Leaves(t: Table, answer: (Verdict, Table), guess: Option<nat>) {
    var (verdict, t') := answer;
    && t'.sweptMs == t.sweptMs
    && if verdict.Refused? || guess.None? then t'.windows == t.windows
       else
         && verdict.key in t'.windows && JustBegun(t'.windows[verdict.key], guess.value)
         && t'.windows - {verdict.key} == t.windows
  }

  lemma NewKeysLeave(t: Table, keys: seq<Key>, guess: Option<nat>, now: nat, cooldown: nat)
    requires |keys| == 3 && Tracked(t.windows, keys).None?
    ensures Leaves(Sweep(t, now, cooldown), AdmitNew(t, keys, guess, now, cooldown), guess)
  {
    assert keys[0] in keys && keys[1] in keys && keys[2] in keys;
    if guess.Some? {
      BegunHoldsOne(guess.value);
    }
  }

  /** A sweep runs only from half full and once a second. It then forgets exactly the networks
      neither locked out nor in use whose last failure is a cooldown old; and, from a full table,
      those with a younger one too. */
  lemma SweepForgetsIff(cooldown: nat, states: seq<System>, events: seq<Event>, i: nat, now: nat, k: Key)
    requires cooldown > 0 && IsRun(cooldown, states, events) && i <= |events| && k in states[i].table.windows
    ensures var s, w := states[i], states[i].table.windows[k];
      var windows' := Sweep(s.table, now, cooldown).windows;
      && (k !in windows' <==>
            && |s.table.windows| >= 16384 && now >= s.table.sweptMs + 1000
            && w.blockedUntilMs <= now && Outstanding(s, k) == {}
            && (|s.table.windows| >= 32768 || w.lastMs + cooldown <= now))
      && (k in windows' ==> windows'[k] == w)
      && Sweep(s.table, now, cooldown).sweptMs ==
         if |s.table.windows| >= 16384 && now >= s.table.sweptMs + 1000 then now else s.table.sweptMs
  {
    RunSlots(cooldown, states, events, i);
    InFlightIsOutstanding(states[i], k);
  }

  // ----- Without a cooldown ------------------------------------------------------------------------------------

  /** A cooldown of zero turns the throttle off: it tracks nothing and refuses nobody. */
  lemma {:induction false} OffRefusesNobody(states: seq<System>, events: seq<Event>, i: nat, ip: IpAddr,
                                            guess: Option<nat>, now: nat)
    requires IsRun(0, states, events) && i <= |events|
    ensures states[i].table == Table(map[], 0) && states[i].failures == map[]
    ensures Admit(0, states[i].table, ip, guess, now).0 == Admitted(KeysOf(ip)[0])
    decreases i
  {
    if i > 0 {
      OffRefusesNobody(states, events, i - 1, ip, guess, now);
      assert Follows(0, states, events, i - 1);
    }
  }
}
