/** One wrong credential in flight, however many requests share it, is one guess: it counts
    as one failure, when the last of them lets go, exactly if any of them failed. */
module ThrottleGuesses {
  import opened Prelude
  import opened ThrottleKeys
  import opened LoginThrottle
  import opened ThrottleRuns

  // ----- What happens to a credential, told by the events alone --------------------------------------

  /** The event settles one request with this credential on this key. */
  predicate Settles(e: Event, k: Key, fp: nat) {
    e.SettleEvent? && e.key == k && e.fp == fp
  }

  /** Some request with this credential settled as failed in the events from `i` up to `j`. */
  ghost predicate SomeFailed(events: seq<Event>, k: Key, fp: nat, i: nat, j: nat)
    requires j <= |events|
  {
    exists m :: i <= m < j && Settles(events[m], k, fp) && events[m].failed
  }

  /** From the admission at `i`, with none outstanding before it, up to state `j` some request
      with this credential is outstanding on the key. */
  ghost predicate Outstanding(cooldown: nat, states: seq<System>, events: seq<Event>, k: Key, fp: nat, i: nat, j: nat) {
    && cooldown > 0 && IsRun(cooldown, states, events) && i < j <= |events| && states[i].held[(k, fp)] == 0
    && forall m :: i < m <= j ==> states[m].held[(k, fp)] > 0
  }

  // ----- The flag of its slot -------------------------------------------------------------------------

  /** The credential's slot remembers a failure. */
  function FailedOf(ps: seq<Pending>, fp: nat): bool {
    var at := SlotFor(ps, fp);
    at < |ps| && ps[at].failed
  }

  function TableFailed(t: Table, k: Key, fp: nat): bool {
    k in t.windows && FailedOf(t.windows[k].pending, fp)
  }

  /** Rewriting one slot changes only the flag of its credential. */
  lemma FailedAfterUpdate(ps: seq<Pending>, i: nat, p: Pending, fp: nat)
    requires i < |ps| && DistinctFps(ps) && DistinctFps(ps[i := p])
    requires ps[i].refs > 0 ==> p.fp == ps[i].fp
    ensures FailedOf(ps[i := p], fp) ==
            if fp == p.fp && p.refs > 0 then p.failed
            else if fp == p.fp && ps[i].refs > 0 then false
            else FailedOf(ps, fp)
  {
    var qs := ps[i := p];
    var a, b := SlotFor(ps, fp), SlotFor(qs, fp);
    if b < |qs| && b != i {
      SlotIsUnique(ps, fp, b);
    }
    if a < |ps| && a != i {
      SlotIsUnique(qs, fp, a);
    }
    if p.refs > 0 && p.fp == fp {
      SlotIsUnique(qs, fp, i);
    }
    if ps[i].refs > 0 && ps[i].fp == fp {
      SlotIsUnique(ps, fp, i);
    }
  }

  lemma NoRefsNoFlag(ps: seq<Pending>, fp: nat)
    requires Refs(ps, fp) == 0
    ensures !FailedOf(ps, fp)
  {
  }

  /** An admission leaves every flag as it is; a new slot starts without one. */
  lemma AdmitKeepsFlag(w: FailWindow, guess: Option<nat>, now: nat, cooldown: nat, fp: nat)
    requires WindowOk(w) && !AdmitWindow(w, guess, now, cooldown).Drop?
    ensures FailedOf(AdmitWindow(w, guess, now, cooldown).window.pending, fp) == FailedOf(w.pending, fp)
  {
    var a := AdmitWindow(w, guess, now, cooldown);
    if guess.Some? && a.Keep? {
      KeepShape(w, guess.value, now, cooldown);
      GuessGains(w, guess.value, now, cooldown);
      var at := GuessSlot(w.pending, guess.value);
      GuessSlotIsOurs(w.pending, guess.value);
      FailedAfterUpdate(w.pending, at, GuessIn(w.pending[at], guess.value), fp);
      if w.pending[at].refs > 0 {
        SlotIsUnique(w.pending, guess.value, at);
      }
    }
  }

  /** A release marks its own credential's slot, and no other. */
  lemma ReleaseMarksFlag(w: FailWindow, g: nat, failed: bool, now: nat, cooldown: nat, fp: nat)
    requires WindowOk(w) && Refs(w.pending, g) > 0 && (g == fp ==> Refs(w.pending, g) > 1)
    ensures FailedOf(ReleaseWindow(w, g, failed, now, cooldown).pending, fp)
         == (FailedOf(w.pending, fp) || (g == fp && failed))
  {
    var at := SlotFor(w.pending, g);
    var p := Pending(w.pending[at].fp, w.pending[at].refs - 1, w.pending[at].failed || failed);
    ReleaseWindowKeeps(w, g, failed, now, cooldown);
    assert ReleaseWindow(w, g, failed, now, cooldown).pending == w.pending[at := p];
    FailedAfterUpdate(w.pending, at, p, fp);
  }

  // ----- One event ---------------------------------------------------------------------------------------

  lemma AdmitTableFlag(cooldown: nat, s: System, ip: IpAddr, guess: Option<nat>, now: nat, k: Key, fp: nat)
    requires cooldown > 0 && SlotsOk(s) && TableRefs(Admit(cooldown, s.table, ip, guess, now).1, k, fp) > 0
    ensures TableFailed(Admit(cooldown, s.table, ip, guess, now).1, k, fp) == TableFailed(s.table, k, fp)
  {
    var keys := KeysOf(ip);
    match Tracked(s.table.windows, keys)
    case None => AdmitNewFlag(s.table, keys, guess, now, cooldown, k, fp);
    case Some(key) =>
      assert WindowOk(s.table.windows[key]);
      if key == k && !AdmitWindow(s.table.windows[key], guess, now, cooldown).Drop? {
        AdmitKeepsFlag(s.table.windows[key], guess, now, cooldown, fp);
      }
  }

  lemma AdmitNewFlag(t: Table, keys: seq<Key>, guess: Option<nat>, now: nat, cooldown: nat, k: Key, fp: nat)
    requires |keys| == 3 && Tracked(t.windows, keys).None?
    requires TableRefs(AdmitNew(t, keys, guess, now, cooldown).1, k, fp) > 0
    ensures TableFailed(AdmitNew(t, keys, guess, now, cooldown).1, k, fp) == TableFailed(t, k, fp)
  {
    assert keys[0] in keys && keys[1] in keys && keys[2] in keys;
    var t' := AdmitNew(t, keys, guess, now, cooldown).1;
    if k !in t.windows {
      assert forall i :: 0 <= i < 5 ==> !t'.windows[k].pending[i].failed;
    }
  }

  /** One event, the credential staying outstanding: its flag is raised by a settlement that
      failed, and by nothing else. */
  lemma EventMarksFlag(cooldown: nat, s: System, e: Event, k: Key, fp: nat)
    requires cooldown > 0 && SlotsOk(s) && Possible(s, e) && SlotsOk(After(cooldown, s, e))
    requires s.held[(k, fp)] > 0 && After(cooldown, s, e).held[(k, fp)] > 0
    ensures TableFailed(After(cooldown, s, e).table, k, fp)
         == (TableFailed(s.table, k, fp) || (Settles(e, k, fp) && e.failed))
  {
    var s' := After(cooldown, s, e);
    assert s.held[(k, fp)] == TableRefs(s.table, k, fp) && s'.held[(k, fp)] == TableRefs(s'.table, k, fp);
    match e
    case AdmitEvent(ip, guess, now) => AdmitTableFlag(cooldown, s, ip, guess, now, k, fp);
    case SettleEvent(key, g, failed, now) =>
      assert s.held[(key, g)] == TableRefs(s.table, key, g) && WindowOk(s.table.windows[key]);
      if key == k {
        ReleaseMarksFlag(s.table.windows[k], g, failed, now, cooldown, fp);
      }
  }

  /** The admission that makes the credential outstanding starts it without a flag. */
  lemma AdmissionStartsClean(cooldown: nat, s: System, e: Event, k: Key, fp: nat)
    requires cooldown > 0 && SlotsOk(s) && Possible(s, e) && SlotsOk(After(cooldown, s, e))
    requires s.held[(k, fp)] == 0 && After(cooldown, s, e).held[(k, fp)] > 0
    ensures e.AdmitEvent? && !TableFailed(After(cooldown, s, e).table, k, fp)
  {
    var s' := After(cooldown, s, e);
    assert s.held[(k, fp)] == TableRefs(s.table, k, fp) && s'.held[(k, fp)] == TableRefs(s'.table, k, fp);
    if e.AdmitEvent? {
      AdmitTableFlag(cooldown, s, e.ip, e.guess, e.now, k, fp);
      if k in s.table.windows {
        NoRefsNoFlag(s.table.windows[k].pending, fp);
      }
    }
  }

  // ----- Runs ------------------------------------------------------------------------------------------------

  /** While the credential is outstanding its slot's flag says whether a request failed. */
  lemma {:induction false} FlagRemembers(cooldown: nat, states: seq<System>, events: seq<Event>, k: Key, fp: nat,
                                         i: nat, j: nat)
    requires Outstanding(cooldown, states, events, k, fp, i, j)
    ensures TableFailed(states[j].table, k, fp) <==> SomeFailed(events, k, fp, i + 1, j)
    decreases j
  {
    RunSlots(cooldown, states, events, j - 1);
    RunSlots(cooldown, states, events, j);
    assert Follows(cooldown, states, events, j - 1);
    assert states[j].held[(k, fp)] > 0;
    if j == i + 1 {
      AdmissionStartsClean(cooldown, states[i], events[i], k, fp);
    } else {
      FlagRemembers(cooldown, states, events, k, fp, i, j - 1);
      assert states[j - 1].held[(k, fp)] > 0;
      EventMarksFlag(cooldown, states[j - 1], events[j - 1], k, fp);
      SomeFailedMore(events, k, fp, i + 1, j - 1);
    }
  }

  lemma SomeFailedMore(events: seq<Event>, k: Key, fp: nat, i: nat, j: nat)
    requires i <= j < |events|
    ensures SomeFailed(events, k, fp, i, j + 1) <==>
              SomeFailed(events, k, fp, i, j) || (Settles(events[j], k, fp) && events[j].failed)
  {
  }

  /** A settlement counts a failure on its key exactly when it lets go of the last request and
      the slot, or the settlement itself, has a failure. Nothing else counts one. */
  lemma EventCounts(cooldown: nat, s: System, e: Event, k: Key, fp: nat)
    requires cooldown > 0 && SlotsOk(s) && Possible(s, e)
    ensures e.AdmitEvent? ==> FailuresOn(After(cooldown, s, e), k) == FailuresOn(s, k)
    ensures Settles(e, k, fp) ==>
              FailuresOn(After(cooldown, s, e), k)
              == FailuresOn(s, k)
                 + (if s.held[(k, fp)] == 1 && (TableFailed(s.table, k, fp) || e.failed) then [e.now] else [])
  {
    if Settles(e, k, fp) {
      assert s.held[(k, fp)] == TableRefs(s.table, k, fp);
      assert FailuresOn(s, k) + [] == FailuresOn(s, k);
    }
  }

  /** A credential admitted with none outstanding, up to the settlement that leaves none: the
      last settlement counts one failure on the key, at its own time, exactly if any request
      with the credential failed; no earlier one, and no admission, counts any. */
  lemma GuessCountsOnce(cooldown: nat, states: seq<System>, events: seq<Event>, k: Key, fp: nat, i: nat, j: nat)
    requires Outstanding(cooldown, states, events, k, fp, i, j) && j < |events| && states[j + 1].held[(k, fp)] == 0
    ensures Settles(events[j], k, fp)
    ensures FailuresOn(states[j + 1], k)
         == FailuresOn(states[j], k) + (if SomeFailed(events, k, fp, i + 1, j + 1) then [events[j].now] else [])
    ensures forall m :: i <= m < j && (events[m].AdmitEvent? || Settles(events[m], k, fp)) ==>
              FailuresOn(states[m + 1], k) == FailuresOn(states[m], k)
  {
    RunSlots(cooldown, states, events, j);
    assert Follows(cooldown, states, events, j);
    assert states[j].held[(k, fp)] > 0;
    FlagRemembers(cooldown, states, events, k, fp, i, j);
    SomeFailedMore(events, k, fp, i + 1, j);
    EventCounts(cooldown, states[j], events[j], k, fp);
    forall m | i <= m < j && (events[m].AdmitEvent? || Settles(events[m], k, fp))
      ensures FailuresOn(states[m + 1], k) == FailuresOn(states[m], k)
    {
      EarlierCountsNothing(cooldown, states, events, k, fp, i, j, m);
    }
  }

  lemma EarlierCountsNothing(cooldown: nat, states: seq<System>, events: seq<Event>, k: Key, fp: nat, i: nat, j: nat,
                             m: nat)
    requires Outstanding(cooldown, states, events, k, fp, i, j) && i <= m < j
    requires events[m].AdmitEvent? || Settles(events[m], k, fp)
    ensures FailuresOn(states[m + 1], k) == FailuresOn(states[m], k)
  {
    RunSlots(cooldown, states, events, m);
    assert Follows(cooldown, states, events, m);
    assert states[m + 1].held[(k, fp)] > 0;
    EventCounts(cooldown, states[m], events[m], k, fp);
    assert FailuresOn(states[m], k) + [] == FailuresOn(states[m], k);
  }
}
