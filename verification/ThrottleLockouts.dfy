/** A lockout, once engaged, is kept until it passes: nothing that happens to the throttle
    forgets it, shortens it, or lets an address counted under it around it. */
module ThrottleLockouts {
  import opened Prelude
  import opened ThrottleKeys
  import opened LoginThrottle
  import opened ThrottleRuns

  /** The key is locked out until `until`, with nothing in flight on it. */
  ghost predicate Locked(s: System, k: Key, until: nat) {
    && k in s.table.windows && s.table.windows[k].blockedUntilMs == until
    && InFlight(s.table.windows[k].pending) == 0
  }

  predicate CountedUnder(t: Table, ip: IpAddr, k: Key) {
    Tracked(t.windows, KeysOf(ip)) == Some(k)
  }

  // ----- The key that counts an address ------------------------------------------------------------

  /** A tracked key is the first of the address's keys that is tracked. */
  lemma {:induction false} TrackedAt(windows: map<Key, FailWindow>, keys: seq<Key>) returns (i: nat)
    requires Tracked(windows, keys).Some?
    ensures i < |keys| && Tracked(windows, keys) == Some(keys[i])
    ensures forall a :: 0 <= a < i ==> keys[a] !in windows
  {
    if keys[0] in windows {
      i := 0;
    } else {
      i := TrackedAt(windows, keys[1..]);
      assert forall a :: 0 < a <= i ==> keys[a] == keys[1..][a - 1];
      i := i + 1;
    }
  }

  lemma {:induction false} FirstIsTracked(windows: map<Key, FailWindow>, keys: seq<Key>, i: nat)
    requires i < |keys| && keys[i] in windows && forall a :: 0 <= a < i ==> keys[a] !in windows
    ensures Tracked(windows, keys) == Some(keys[i])
  {
    if i > 0 {
      FirstIsTracked(windows, keys[1..], i - 1);
    }
  }

  /** Every key tracked after an event was tracked before it, or is a key of an address no
      network of which was. */
  ghost predicate NewKeysFrom(t: Table, t': Table, ip: IpAddr) {
    forall k :: k in t'.windows && k !in t.windows ==> k in KeysOf(ip) && Tracked(t.windows, KeysOf(ip)).None?
  }

  lemma AdmitAddsOwnKey(cooldown: nat, t: Table, ip: IpAddr, guess: Option<nat>, now: nat)
    ensures NewKeysFrom(t, Admit(cooldown, t, ip, guess, now).1, ip)
  {
    var keys := KeysOf(ip);
    assert keys[0] in keys && keys[1] in keys && keys[2] in keys;
  }

  /** An address with a finer network of `ip` has the coarser ones too. */
  lemma FinerBringsCoarser(ip: IpAddr, other: IpAddr, a: nat, i: nat)
    requires a <= i < 3 && KeysOf(ip)[a] in KeysOf(other)
    ensures KeysOf(ip)[i] in KeysOf(other)
  {
    var b :| 0 <= b < 3 && KeysOf(other)[b] == KeysOf(ip)[a];
    assert Tier(KeysOf(other)[b]) == b && Tier(KeysOf(ip)[a]) == a;
    NetworksNest(ip, other, a, i);
  }

  /** While a key counts an address and stays tracked, no admission puts a finer key in
      front of it: an address under the finer key would be counted under this one. */
  lemma StaysCounted(t: Table, t': Table, ip: IpAddr, k: Key, other: IpAddr)
    requires CountedUnder(t, ip, k) && k in t'.windows && NewKeysFrom(t, t', other)
    ensures CountedUnder(t', ip, k)
  {
    var keys := KeysOf(ip);
    var i := TrackedAt(t.windows, keys);
    forall a | 0 <= a < i
      ensures keys[a] !in t'.windows
    {
      if keys[a] in KeysOf(other) {
        FinerBringsCoarser(ip, other, a, i);
      }
    }
    FirstIsTracked(t'.windows, keys, i);
  }

  // ----- One event -----------------------------------------------------------------------------------

  /** While the lockout lasts, every admission counted under its key is refused, right and
      wrong credentials alike, for the seconds that remain rounded up, and changes nothing. */
  lemma LockedRefuses(cooldown: nat, t: Table, ip: IpAddr, guess: Option<nat>, now: nat, k: Key)
    requires cooldown > 0 && CountedUnder(t, ip, k) && now < t.windows[k].blockedUntilMs
    ensures var (verdict, t') := Admit(cooldown, t, ip, guess, now);
            && verdict.Refused? && t' == t
            && (verdict.secs - 1) * 1000 < t.windows[k].blockedUntilMs - now <= verdict.secs * 1000
  {
    assert t.windows[k := t.windows[k]] == t.windows;
  }

  /** An admission before the end leaves a locked window untouched. */
  lemma AdmitKeepsLocked(cooldown: nat, t: Table, ip: IpAddr, guess: Option<nat>, now: nat, k: Key)
    requires cooldown > 0 && k in t.windows && now < t.windows[k].blockedUntilMs
    ensures var t' := Admit(cooldown, t, ip, guess, now).1; k in t'.windows && t'.windows[k] == t.windows[k]
  {
    var keys := KeysOf(ip);
    match Tracked(t.windows, keys)
    case None =>
      assert keys[0] in keys && keys[1] in keys && keys[2] in keys;
      assert Survives(t.windows[k], |t.windows| >= CAP, now, cooldown);
    case Some(key) =>
  }

  lemma EventKeepsLocked(cooldown: nat, s: System, e: Event, k: Key, until: nat)
    requires cooldown > 0 && SlotsOk(s) && Possible(s, e) && Locked(s, k, until) && e.now < until
    ensures Locked(After(cooldown, s, e), k, until)
  {
    match e
    case AdmitEvent(ip, guess, now) => AdmitKeepsLocked(cooldown, s.table, ip, guess, now, k);
    case SettleEvent(key, fp, _, _) =>
      assert s.held[(key, fp)] == TableRefs(s.table, key, fp);
      if key == k {
        NothingInFlightNoRefs(s.table.windows[k].pending, fp);
      }
  }

  lemma EventKeepsCounted(cooldown: nat, s: System, e: Event, k: Key, until: nat, ip: IpAddr)
    requires cooldown > 0 && SlotsOk(s) && Possible(s, e) && Locked(s, k, until) && e.now < until
    requires CountedUnder(s.table, ip, k)
    ensures CountedUnder(After(cooldown, s, e).table, ip, k)
  {
    EventKeepsLocked(cooldown, s, e, k, until);
    var s' := After(cooldown, s, e);
    if e.AdmitEvent? {
      AdmitAddsOwnKey(cooldown, s.table, e.ip, e.guess, e.now);
      StaysCounted(s.table, s'.table, ip, k, e.ip);
    } else {
      assert s'.table.windows.Keys == s.table.windows.Keys;
      StaysCounted(s.table, s'.table, ip, k, ip);
    }
  }

  // ----- Runs ------------------------------------------------------------------------------------------

  /** At step `i` a lockout engages on `k`. */
  predicate Engages(states: seq<System>, i: nat, k: Key) {
    && i + 1 < |states| && k in states[i].table.windows && k in states[i + 1].table.windows
    && states[i + 1].table.windows[k].blockedUntilMs != states[i].table.windows[k].blockedUntilMs
  }

  /** From the step a lockout engages until it ends, whatever sweeps, admissions and
      settlements happen: the key stays tracked, the end stays where it was, nothing is in
      flight on it, and an address it counted stays counted under it. */
  lemma {:induction false} LockoutStays(cooldown: nat, states: seq<System>, events: seq<Event>, i: nat, j: nat, k: Key,
                                        ip: IpAddr)
    requires cooldown > 0 && IsRun(cooldown, states, events) && i < j <= |events| && Engages(states, i, k)
    requires forall m :: i < m < j ==> events[m].now < states[i + 1].table.windows[k].blockedUntilMs
    ensures Locked(states[j], k, states[i + 1].table.windows[k].blockedUntilMs)
    ensures CountedUnder(states[i + 1].table, ip, k) ==> CountedUnder(states[j].table, ip, k)
    decreases j
  {
    if j == i + 1 {
      LockoutFindsNothingInFlight(cooldown, states, events, i, k);
    } else {
      LockoutStays(cooldown, states, events, i, j - 1, k, ip);
      StaysOneMore(cooldown, states, events, j - 1, k, states[i + 1].table.windows[k].blockedUntilMs, ip);
    }
  }

  lemma StaysOneMore(cooldown: nat, states: seq<System>, events: seq<Event>, m: nat, k: Key, until: nat, ip: IpAddr)
    requires cooldown > 0 && IsRun(cooldown, states, events) && m < |events|
    requires Locked(states[m], k, until) && events[m].now < until
    ensures Locked(states[m + 1], k, until)
    ensures CountedUnder(states[m].table, ip, k) ==> CountedUnder(states[m + 1].table, ip, k)
  {
    RunSlots(cooldown, states, events, m);
    assert Follows(cooldown, states, events, m);
    EventKeepsLocked(cooldown, states[m], events[m], k, until);
    if CountedUnder(states[m].table, ip, k) {
      EventKeepsCounted(cooldown, states[m], events[m], k, until, ip);
    }
  }

  /** A lockout is never forgotten: from the step it engages until it ends, every request of
      an address it counted is refused, right and wrong credentials alike, for the seconds
      that remain rounded up. */
  lemma LockoutLasts(cooldown: nat, states: seq<System>, events: seq<Event>, i: nat, j: nat, k: Key,
                     ip: IpAddr, guess: Option<nat>, now: nat)
    requires cooldown > 0 && IsRun(cooldown, states, events) && i < j <= |events| && Engages(states, i, k)
    requires forall m :: i < m < j ==> events[m].now < states[i + 1].table.windows[k].blockedUntilMs
    requires CountedUnder(states[i + 1].table, ip, k) && now < states[i + 1].table.windows[k].blockedUntilMs
    ensures var (verdict, t) := Admit(cooldown, states[j].table, ip, guess, now);
            var left := states[i + 1].table.windows[k].blockedUntilMs - now;
            && verdict.Refused? && t == states[j].table
            && (verdict.secs - 1) * 1000 < left <= verdict.secs * 1000
  {
    LockoutStays(cooldown, states, events, i, j, k, ip);
    LockedRefuses(cooldown, states[j].table, ip, guess, now, k);
  }
}
