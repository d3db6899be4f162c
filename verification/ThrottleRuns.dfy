/** Whole-run guarantees of the login throttle. */
module ThrottleRuns {
  import opened Prelude
  import opened ThrottleKeys
  import opened LoginThrottle

  // ----- Slots of one window ---------------------------------------------------------------

  /** References held on `fp`. */
  function Refs(ps: seq<Pending>, fp: nat): nat {
    var at := SlotFor(ps, fp);
    if at < |ps| then ps[at].refs else 0
  }

  ghost predicate DistinctFps(ps: seq<Pending>) {
    forall i, j :: 0 <= i < j < |ps| && ps[i].refs > 0 && ps[j].refs > 0 ==> ps[i].fp != ps[j].fp
  }

  /** Five slots with distinct credentials, and failures plus slots within the limit. */
  ghost predicate WindowOk(w: FailWindow) {
    && |w.pending| == FAIL_LIMIT && DistinctFps(w.pending)
    && w.count < FAIL_LIMIT && w.count + InFlight(w.pending) <= FAIL_LIMIT
  }

  lemma {:induction false} InFlightUpdate(ps: seq<Pending>, i: nat, p: Pending)
    requires i < |ps|
    ensures InFlight(ps[i := p]) + (if ps[i].refs > 0 then 1 else 0) == InFlight(ps) + (if p.refs > 0 then 1 else 0)
  {
    if i == 0 {
      assert ps[i := p][1..] == ps[1..];
    } else {
      assert ps[i := p][1..] == ps[1..][i - 1 := p];
      InFlightUpdate(ps[1..], i - 1, p);
    }
  }

  lemma {:induction false} InFlightBounds(ps: seq<Pending>)
    ensures InFlight(ps) <= |ps|
    ensures InFlight(ps) == |ps| <==> forall i :: 0 <= i < |ps| ==> ps[i].refs > 0
    ensures InFlight(ps) == 0 <==> forall i :: 0 <= i < |ps| ==> ps[i].refs == 0
  {
    if ps != [] {
      InFlightBounds(ps[1..]);
      assert forall i :: 0 < i < |ps| ==> ps[i] == ps[1..][i - 1];
    }
  }

  /** With distinct credentials the slot found is the only one. */
  lemma SlotIsUnique(ps: seq<Pending>, fp: nat, i: nat)
    requires DistinctFps(ps) && i < |ps| && Holds(ps[i], fp)
    ensures SlotFor(ps, fp) == i
  {
    assert forall j :: 0 <= j < |ps| && j != i ==> !Holds(ps[j], fp);
  }

  /** Rewriting one slot changes only the references of its credential. */
  lemma RefsAfterUpdate(ps: seq<Pending>, i: nat, p: Pending, fp: nat)
    requires i < |ps| && DistinctFps(ps) && DistinctFps(ps[i := p])
    requires ps[i].refs > 0 ==> p.fp == ps[i].fp
    ensures Refs(ps[i := p], fp) == if fp == p.fp && (ps[i].refs > 0 || p.refs > 0) then p.refs else Refs(ps, fp)
  {
    var qs := ps[i := p];
    var a, b := SlotFor(ps, fp), SlotFor(qs, fp);
    if b < |qs| && b != i {
      SlotIsUnique(ps, fp, b);
    }
    if a < |ps| && a != i {
      SlotIsUnique(qs, fp, a);
    }
    if p.refs > 0 && p.fp == fp {
      SlotIsUnique(qs, fp, i);
    }
    if ps[i].refs > 0 && ps[i].fp == fp {
      SlotIsUnique(ps, fp, i);
    }
  }

  lemma NothingInFlightNoRefs(ps: seq<Pending>, fp: nat)
    requires InFlight(ps) == 0
    ensures Refs(ps, fp) == 0
  {
    InFlightBounds(ps);
  }

  // ----- One window's transitions -----------------------------------------------------------

  lemma RefusalKeeps(w: FailWindow, guess: Option<nat>, now: nat, cooldown: nat)
    requires WindowOk(w)
    ensures var a := AdmitWindow(w, guess, now, cooldown);
            a.Refuse? ==> a.secs > 0 && WindowOk(a.window) && a.window.pending == w.pending
  {
  }

  lemma DropIsIdle(w: FailWindow, guess: Option<nat>, now: nat, cooldown: nat)
    ensures AdmitWindow(w, guess, now, cooldown).Drop? ==> guess.None? && InFlight(w.pending) == 0
  {
  }

  /** The references `ps'` holds are those of `ps`, plus one for an admitted `guess`. */
  ghost predicate GainsOnly(ps: seq<Pending>, ps': seq<Pending>, guess: Option<nat>) {
    forall fp: nat :: Refs(ps', fp) == Refs(ps, fp) + (if guess == Some(fp) then 1 else 0)
  }

  /** The slot an admitted credential gets: its own, or else the first free one. */
  function GuessSlot(ps: seq<Pending>, fp: nat): nat {
    if SlotFor(ps, fp) < |ps| then SlotFor(ps, fp) else FreeSlot(ps)
  }

  /** What an admitted credential leaves behind: one reference more on that slot, and a
      count within the budget that includes it. */
  lemma KeepShape(w: FailWindow, fp: nat, now: nat, cooldown: nat)
    requires WindowOk(w) && AdmitWindow(w, Some(fp), now, cooldown).Keep?
    ensures var at := GuessSlot(w.pending, fp); var w' := AdmitWindow(w, Some(fp), now, cooldown).window;
      && at < |w.pending| && w'.count <= w.count
      && (w.pending[at].refs == 0 ==>
            w'.count + InFlight(w.pending) < FAIL_LIMIT && SlotFor(w.pending, fp) == |w.pending|)
      && w'.pending == w.pending[at := GuessIn(w.pending[at], fp)]
  {
    InFlightBounds(w.pending);
  }

  function GuessIn(p: Pending, fp: nat): Pending {
    if p.refs > 0 then p.(refs := p.refs + 1) else Pending(fp, 1, false)
  }

  lemma GuessSlotIsOurs(ps: seq<Pending>, fp: nat)
    requires GuessSlot(ps, fp) < |ps|
    ensures GuessIn(ps[GuessSlot(ps, fp)], fp).fp == fp
  {
  }

  lemma GuessGains(w: FailWindow, fp: nat, now: nat, cooldown: nat)
    requires WindowOk(w) && AdmitWindow(w, Some(fp), now, cooldown).Keep?
    ensures var w' := AdmitWindow(w, Some(fp), now, cooldown).window;
            WindowOk(w') && GainsOnly(w.pending, w'.pending, Some(fp))
  {
    KeepShape(w, fp, now, cooldown);
    var at := GuessSlot(w.pending, fp);
    GuessSlotIsOurs(w.pending, fp);
    SlotGains(w.pending, at, GuessIn(w.pending[at], fp));
  }

  /** An admission keeps the window in order, adds one reference exactly when a wrong
      credential is admitted, and never drops a window with an attempt in flight. */
  lemma AdmitWindowKeeps(w: FailWindow, guess: Option<nat>, now: nat, cooldown: nat)
    requires WindowOk(w)
    ensures var a := AdmitWindow(w, guess, now, cooldown);
      && (a.Refuse? ==> a.secs > 0 && WindowOk(a.window) && a.window.pending == w.pending)
      && (a.Keep? ==> WindowOk(a.window) && GainsOnly(w.pending, a.window.pending, guess))
      && (a.Drop? ==> guess.None? && InFlight(w.pending) == 0)
  {
    RefusalKeeps(w, guess, now, cooldown);
    DropIsIdle(w, guess, now, cooldown);
    if guess.Some? && AdmitWindow(w, guess, now, cooldown).Keep? {
      GuessGains(w, guess.value, now, cooldown);
    }
  }

  /** Taking a slot for a credential, or one more reference to it. */
  lemma SlotGains(ps: seq<Pending>, at: nat, p: Pending)
    requires DistinctFps(ps) && at < |ps| && p.refs == ps[at].refs + 1
    requires ps[at].refs > 0 ==> p.fp == ps[at].fp
    requires ps[at].refs == 0 ==> SlotFor(ps, p.fp) == |ps|
    ensures DistinctFps(ps[at := p])
    ensures InFlight(ps[at := p]) == InFlight(ps) + (if ps[at].refs == 0 then 1 else 0)
    ensures GainsOnly(ps, ps[at := p], Some(p.fp))
  {
    InFlightUpdate(ps, at, p);
    assert DistinctFps(ps[at := p]);
    forall fp: nat
      ensures Refs(ps[at := p], fp) == Refs(ps, fp) + (if Some(p.fp) == Some(fp) then 1 else 0)
    {
      RefsAfterUpdate(ps, at, p, fp);
      if ps[at].refs > 0 {
        SlotIsUnique(ps, p.fp, at);
      }
    }
  }

  /** A release of a held credential finds its slot, takes one reference off it, and when
      it engages a lockout leaves nothing in flight. */
  lemma ReleaseWindowKeeps(w: FailWindow, fp: nat, failed: bool, now: nat, cooldown: nat)
    requires WindowOk(w) && Refs(w.pending, fp) > 0
    ensures var r := ReleaseWindow(w, fp, failed, now, cooldown);
      && WindowOk(r)
      && (forall g: nat :: Refs(r.pending, g) == Refs(w.pending, g) - (if g == fp then 1 else 0))
      && (r.blockedUntilMs != w.blockedUntilMs ==> InFlight(r.pending) == 0)
      && (Counts(w, fp, failed) ==> InFlight(r.pending) == InFlight(w.pending) - 1)
      && (Counts(w, fp, failed) && r.count == 0 ==> InFlight(r.pending) == 0)
  {
    var ps := w.pending;
    var at := SlotFor(ps, fp);
    var p := Pending(ps[at].fp, ps[at].refs - 1, ps[at].failed || failed);
    InFlightUpdate(ps, at, p);
    assert DistinctFps(ps[at := p]);
    forall g: nat
      ensures Refs(ps[at := p], g) == Refs(ps, g) - (if g == fp then 1 else 0)
    {
      RefsAfterUpdate(ps, at, p, g);
    }
  }

  // ----- The table with its outstanding attempts ----------------------------------------------

  /** The table, every admitted wrong-credential attempt not yet settled, the latest clock
      reading, and per key the times at which failures were counted. */
  datatype System = System(table: Table, held: multiset<(Key, nat)>, clock: nat, failures: map<Key, seq<nat>>)

  datatype Event =
    | AdmitEvent(ip: IpAddr, guess: Option<nat>, now: nat)
    | SettleEvent(key: Key, fp: nat, failed: bool, now: nat)

  function FailuresOn(s: System, k: Key): seq<nat> {
    if k in s.failures then s.failures[k] else []
  }

  /** Only an outstanding attempt can be settled. */
  predicate Possible(s: System, e: Event) {
    e.SettleEvent? ==> s.held[(e.key, e.fp)] > 0
  }

  function After(cooldown: nat, s: System, e: Event): System
    requires Possible(s, e)
  {
    match e
    case AdmitEvent(ip, guess, now) =>
      var (verdict, table) := Admit(cooldown, s.table, ip, guess, now);
      var held := if verdict.Admitted? && guess.Some? then s.held + multiset{(verdict.key, guess.value)} else s.held;
      System(table, held, now, s.failures)
    case SettleEvent(key, fp, failed, now) =>
      var counts := key in s.table.windows && Counts(s.table.windows[key], fp, failed);
      System(Release(cooldown, s.table, key, fp, failed, now),
             s.held - multiset{(key, fp)}, now,
             if counts then s.failures[key := FailuresOn(s, key) + [now]] else s.failures)
  }

  const START := System(Table(map[], 0), multiset{}, 0, map[])

  /** Everything that can happen to a fresh throttle, with any clock readings. */
  ghost predicate IsRun(cooldown: nat, states: seq<System>, events: seq<Event>) {
    && |states| == |events| + 1 && states[0] == START
    && forall i :: 0 <= i < |events| ==> Follows(cooldown, states, events, i)
  }

  ghost predicate Follows(cooldown: nat, states: seq<System>, events: seq<Event>, i: nat)
    requires |states| == |events| + 1 && i < |events|
  {
    Possible(states[i], events[i]) && states[i + 1] == After(cooldown, states[i], events[i])
  }

  // ----- Slots and outstanding attempts agree --------------------------------------------------

  function TableRefs(t: Table, k: Key, fp: nat): nat {
    if k in t.windows then Refs(t.windows[k].pending, fp) else 0
  }

  /** Every window is in order, and each key's slot references are exactly its
      outstanding wrong-credential attempts. */
  ghost predicate SlotsOk(s: System) {
    && (forall k :: k in s.table.windows ==> WindowOk(s.table.windows[k]))
    && (forall k: Key, fp: nat {:trigger s.held[(k, fp)]} {:trigger TableRefs(s.table, k, fp)} ::
          s.held[(k, fp)] == TableRefs(s.table, k, fp))
  }

  /** A sweep drops no reference and creates none. */
  lemma SweepKeepsRefs(t: Table, now: nat, cooldown: nat, k: Key, fp: nat)
    ensures TableRefs(Sweep(t, now, cooldown), k, fp) == TableRefs(t, k, fp)
  {
    if k in t.windows && k !in Sweep(t, now, cooldown).windows {
      NothingInFlightNoRefs(t.windows[k].pending, fp);
    }
  }

  lemma NewWindowOk(fp: nat)
    ensures var w := EMPTY_WINDOW.(pending := EMPTY_WINDOW.pending[0 := Pending(fp, 1, false)]);
            WindowOk(w) && InFlight(w.pending) == 1 && forall g: nat :: Refs(w.pending, g) == if g == fp then 1 else 0
  {
    var ps := EMPTY_WINDOW.pending;
    InFlightBounds(ps);
    forall g: nat ensures SlotFor(ps, g) == |ps| {
      assert forall j :: 0 <= j < |ps| ==> !Holds(ps[j], g);
    }
    SlotGains(ps, 0, Pending(fp, 1, false));
  }

  lemma AdmitNewKeeps(s: System, cooldown: nat, keys: seq<Key>, guess: Option<nat>, now: nat)
    requires SlotsOk(s) && |keys| == 3 && Tracked(s.table.windows, keys).None?
    ensures var (v, t) := AdmitNew(s.table, keys, guess, now, cooldown);
      && (forall k :: k in t.windows ==> WindowOk(t.windows[k]))
      && (forall k: Key, fp: nat :: TableRefs(t, k, fp) ==
            s.held[(k, fp)] + (if v.Admitted? && k == v.key && guess == Some(fp) then 1 else 0))
  {
    var swept := Sweep(s.table, now, cooldown);
    var (v, t) := AdmitNew(s.table, keys, guess, now, cooldown);
    if guess.Some? {
      NewWindowOk(guess.value);
    }
    forall k: Key, fp: nat
      ensures TableRefs(t, k, fp) == s.held[(k, fp)] + (if v.Admitted? && k == v.key && guess == Some(fp) then 1 else 0)
    {
      SweepKeepsRefs(s.table, now, cooldown, k, fp);
      assert s.held[(k, fp)] == TableRefs(s.table, k, fp);
    }
  }

  lemma AdmitTrackedKeeps(s: System, cooldown: nat, key: Key, guess: Option<nat>, now: nat)
    requires SlotsOk(s) && key in s.table.windows
    ensures var a := AdmitWindow(s.table.windows[key], guess, now, cooldown);
      var t := if a.Drop? then s.table.(windows := s.table.windows - {key})
               else s.table.(windows := s.table.windows[key := a.window]);
      && (forall k :: k in t.windows ==> WindowOk(t.windows[k]))
      && (forall k: Key, fp: nat :: TableRefs(t, k, fp) ==
            s.held[(k, fp)] + (if !a.Refuse? && k == key && guess == Some(fp) then 1 else 0))
  {
    var w := s.table.windows[key];
    assert WindowOk(w);
    AdmitWindowKeeps(w, guess, now, cooldown);
    var a := AdmitWindow(w, guess, now, cooldown);
    var t := if a.Drop? then s.table.(windows := s.table.windows - {key})
             else s.table.(windows := s.table.windows[key := a.window]);
    forall k: Key, fp: nat
      ensures TableRefs(t, k, fp) == s.held[(k, fp)] + (if !a.Refuse? && k == key && guess == Some(fp) then 1 else 0)
    {
      assert s.held[(k, fp)] == TableRefs(s.table, k, fp);
      if a.Drop? && k == key {
        NothingInFlightNoRefs(w.pending, fp);
      }
    }
  }

  /** An admission and the table it leaves, in terms of the outstanding attempts. */
  lemma AdmitKeepsRefs(cooldown: nat, s: System, ip: IpAddr, guess: Option<nat>, now: nat)
    requires cooldown > 0 && SlotsOk(s)
    ensures var (v, t) := Admit(cooldown, s.table, ip, guess, now);
      && (forall k :: k in t.windows ==> WindowOk(t.windows[k]))
      && (forall k: Key, fp: nat :: TableRefs(t, k, fp) ==
            s.held[(k, fp)] + (if v.Admitted? && k == v.key && guess == Some(fp) then 1 else 0))
  {
    var keys := KeysOf(ip);
    match Tracked(s.table.windows, keys)
    case None => AdmitNewKeeps(s, cooldown, keys, guess, now);
    case Some(key) => AdmitTrackedKeeps(s, cooldown, key, guess, now);
  }

  lemma AdmitKeepsSlots(cooldown: nat, s: System, e: Event)
    requires cooldown > 0 && SlotsOk(s) && e.AdmitEvent?
    ensures SlotsOk(After(cooldown, s, e))
  {
    AdmitKeepsRefs(cooldown, s, e.ip, e.guess, e.now);
  }

  lemma SettleKeepsSlots(cooldown: nat, s: System, e: Event)
    requires cooldown > 0 && SlotsOk(s) && e.SettleEvent? && Possible(s, e)
    ensures SlotsOk(After(cooldown, s, e))
  {
    var s' := After(cooldown, s, e);
    assert s.held[(e.key, e.fp)] == TableRefs(s.table, e.key, e.fp);
    ReleaseWindowKeeps(s.table.windows[e.key], e.fp, e.failed, e.now, cooldown);
    forall k: Key, g: nat ensures s'.held[(k, g)] == TableRefs(s'.table, k, g) {
      assert s.held[(k, g)] == TableRefs(s.table, k, g);
    }
  }

  lemma EventKeepsSlots(cooldown: nat, s: System, e: Event)
    requires cooldown > 0 && SlotsOk(s) && Possible(s, e)
    ensures SlotsOk(After(cooldown, s, e))
  {
    if e.AdmitEvent? {
      AdmitKeepsSlots(cooldown, s, e);
    } else {
      SettleKeepsSlots(cooldown, s, e);
    }
  }

  lemma {:induction false} RunSlots(cooldown: nat, states: seq<System>, events: seq<Event>, i: nat)
    requires cooldown > 0 && IsRun(cooldown, states, events) && i <= |events|
    ensures SlotsOk(states[i])
    decreases i
  {
    if i > 0 {
      RunSlots(cooldown, states, events, i - 1);
      assert Follows(cooldown, states, events, i - 1);
      EventKeepsSlots(cooldown, states[i - 1], events[i - 1]);
    }
  }

  /** In every reachable state each key's references are its outstanding attempts, the
      credentials in use are distinct and failures plus slots stay within the limit; so a
      key with an outstanding attempt is tracked and the attempt's slot is there to be
      released. */
  lemma SlotsMatchAttempts(cooldown: nat, states: seq<System>, events: seq<Event>, i: nat, k: Key, fp: nat)
    requires cooldown > 0 && IsRun(cooldown, states, events) && i <= |events|
    ensures states[i].held[(k, fp)] == TableRefs(states[i].table, k, fp)
    ensures k in states[i].table.windows ==>
              var w := states[i].table.windows[k];
              DistinctFps(w.pending) && |w.pending| == FAIL_LIMIT && w.count + InFlight(w.pending) <= FAIL_LIMIT
    ensures states[i].held[(k, fp)] > 0 ==>
              && k in states[i].table.windows
              && SlotFor(states[i].table.windows[k].pending, fp) < |states[i].table.windows[k].pending|
  {
    RunSlots(cooldown, states, events, i);
    assert states[i].held[(k, fp)] == TableRefs(states[i].table, k, fp);
    if k in states[i].table.windows {
      assert WindowOk(states[i].table.windows[k]);
    }
  }

  /** An admission engages and lifts no lockout. */
  lemma AdmitKeepsLockouts(cooldown: nat, t: Table, ip: IpAddr, guess: Option<nat>, now: nat, k: Key)
    requires k in t.windows && k in Admit(cooldown, t, ip, guess, now).1.windows
    ensures Admit(cooldown, t, ip, guess, now).1.windows[k].blockedUntilMs == t.windows[k].blockedUntilMs
  {
    var keys := KeysOf(ip);
    assert keys[0] in keys && keys[1] in keys && keys[2] in keys;
  }

  /** A lockout engages only when an attempt on its own key settles. */
  lemma LockoutTakesASettlement(cooldown: nat, s: System, e: Event, k: Key)
    requires Possible(s, e) && k in s.table.windows && k in After(cooldown, s, e).table.windows
    requires After(cooldown, s, e).table.windows[k].blockedUntilMs != s.table.windows[k].blockedUntilMs
    ensures e.SettleEvent? && e.key == k
  {
    if e.AdmitEvent? {
      AdmitKeepsLockouts(cooldown, s.table, e.ip, e.guess, e.now, k);
    }
  }

  /** When a lockout engages on a key, an attempt on it has just settled and nothing is in
      flight on it any more. */
  lemma LockoutFindsNothingInFlight(cooldown: nat, states: seq<System>, events: seq<Event>, i: nat, k: Key)
    requires cooldown > 0 && IsRun(cooldown, states, events) && i < |events|
    requires k in states[i].table.windows && k in states[i + 1].table.windows
    requires states[i + 1].table.windows[k].blockedUntilMs != states[i].table.windows[k].blockedUntilMs
    ensures events[i].SettleEvent? && events[i].key == k
    ensures InFlight(states[i + 1].table.windows[k].pending) == 0
    ensures forall fp: nat :: states[i + 1].held[(k, fp)] == 0
  {
    RunSlots(cooldown, states, events, i);
    RunSlots(cooldown, states, events, i + 1);
    assert Follows(cooldown, states, events, i);
    var e := events[i];
    LockoutTakesASettlement(cooldown, states[i], e, k);
    assert states[i].held[(e.key, e.fp)] == TableRefs(states[i].table, e.key, e.fp);
    ReleaseWindowKeeps(states[i].table.windows[e.key], e.fp, e.failed, e.now, cooldown);
    forall fp: nat ensures states[i + 1].held[(k, fp)] == 0 {
      assert states[i + 1].held[(k, fp)] == TableRefs(states[i + 1].table, k, fp);
      NothingInFlightNoRefs(states[i + 1].table.windows[k].pending, fp);
    }
  }
}
