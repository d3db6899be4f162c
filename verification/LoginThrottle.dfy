/** The per-address brute-force throttle: its table, the two transitions that change it,
    and the locked object that runs them. */
module LoginThrottle {
  import opened Prelude
  import opened ThrottleKeys

  const FAIL_LIMIT: nat := 5
  const CAP: nat := 32 * 1024
  const SWEEP_INTERVAL_MS: nat := 1000

  /** One wrong credential in flight; `refs == 0` marks the slot free. */
  datatype Pending = Pending(fp: nat, refs: nat, failed: bool)

  const FREE := Pending(0, 0, false)

  datatype FailWindow = FailWindow(count: nat, lastMs: nat, blockedUntilMs: nat, pending: seq<Pending>)

  const EMPTY_WINDOW := FailWindow(0, 0, 0, [FREE, FREE, FREE, FREE, FREE])

  datatype Table = Table(windows: map<Key, FailWindow>, sweptMs: nat)

  datatype Verdict = Admitted(key: Key) | Refused(secs: nat)

  // ----- One window --------------------------------------------------------------------

  /** How many slots are in use. */
  function InFlight(ps: seq<Pending>): nat {
    if ps == [] then 0 else (if ps[0].refs > 0 then 1 else 0) + InFlight(ps[1..])
  }

  /** Holds a lockout or an unfinished attempt. */
  predicate Live(w: FailWindow, now: nat) {
    w.blockedUntilMs > now || InFlight(w.pending) > 0
  }

  predicate Decayed(w: FailWindow, now: nat, cooldown: nat) {
    SatSub(now, w.lastMs) >= cooldown
  }

  predicate Holds(p: Pending, fp: nat) {
    p.refs > 0 && p.fp == fp
  }

  /** The first slot in use for `fp`, or the length when there is none. */
  function SlotFor(ps: seq<Pending>, fp: nat): (i: nat)
    ensures i <= |ps|
    ensures i < |ps| ==> Holds(ps[i], fp)
    ensures forall j :: 0 <= j < i ==> !Holds(ps[j], fp)
  {
    if ps == [] || Holds(ps[0], fp) then 0 else 1 + SlotFor(ps[1..], fp)
  }

  /** The first free slot, or the length when there is none. */
  function FreeSlot(ps: seq<Pending>): (i: nat)
    ensures i <= |ps|
    ensures i < |ps| ==> ps[i].refs == 0
    ensures forall j :: 0 <= j < i ==> ps[j].refs > 0
  {
    if ps == [] || ps[0].refs == 0 then 0 else 1 + FreeSlot(ps[1..])
  }

  /** A window's answer to an admission: refuse for some seconds, keep a changed window,
      or admit and drop the window. */
  datatype WindowAnswer = Refuse(secs: nat, window: FailWindow) | Keep(window: FailWindow) | Drop

  /** Admission against a tracked window: a lockout refuses; old failures are forgiven; a
      credential already in flight shares its slot; a full budget refuses; a new wrong
      credential takes a slot; a valid one may retire an idle window. */
  function AdmitWindow(w: FailWindow, guess: Option<nat>, now: nat, cooldown: nat): WindowAnswer {
    if w.blockedUntilMs > now then Refuse(DivCeil(w.blockedUntilMs - now, 1000), w)
    else
      var decayed := Decayed(w, now, cooldown);
      var w1 := if decayed then w.(count := 0) else w;
      var at := if guess.Some? then SlotFor(w1.pending, guess.value) else |w1.pending|;
      if at < |w1.pending| then
        Keep(w1.(pending := w1.pending[at := w1.pending[at].(refs := w1.pending[at].refs + 1)]))
      else if w1.count + InFlight(w1.pending) >= FAIL_LIMIT then Refuse(1, w1)
      else
        match guess
        case Some(fp) =>
          var free := FreeSlot(w1.pending);
          if free < |w1.pending| then Keep(w1.(pending := w1.pending[free := Pending(fp, 1, false)])) else Keep(w1)
        case None => if decayed && !Live(w1, now) then Drop else Keep(w1)
  }

  /** Whether releasing `fp` now counts as one failed login: the last reference lets go
      and some reference failed. */
  predicate Counts(w: FailWindow, fp: nat, failed: bool) {
    var at := SlotFor(w.pending, fp);
    at < |w.pending| && w.pending[at].refs == 1 && (w.pending[at].failed || failed)
  }

  function ReleaseWindow(w: FailWindow, fp: nat, failed: bool, now: nat, cooldown: nat): FailWindow {
    var at := SlotFor(w.pending, fp);
    if at == |w.pending| then w
    else
      var p := w.pending[at];
      var w1 := w.(pending := w.pending[at := Pending(p.fp, p.refs - 1, p.failed || failed)]);
      if !Counts(w, fp, failed) then w1
      else
        var count := (if Decayed(w, now, cooldown) then 0 else w.count) + 1;
        if count >= FAIL_LIMIT then w1.(count := 0, lastMs := now, blockedUntilMs := SatAdd(now, cooldown))
        else w1.(count := count, lastMs := now)
  }

  // ----- The table ---------------------------------------------------------------------

  /** The most specific of `keys` already tracked. */
  function Tracked(windows: map<Key, FailWindow>, keys: seq<Key>): (k: Option<Key>)
    ensures k.Some? ==> k.value in keys && k.value in windows
    ensures k.None? ==> forall key :: key in keys ==> key !in windows
  {
    if keys == [] then None
    else if keys[0] in windows then Some(keys[0])
    else Tracked(windows, keys[1..])
  }

  predicate SweepDue(t: Table, now: nat) {
    |t.windows| >= CAP / 2 && SatSub(now, t.sweptMs) >= SWEEP_INTERVAL_MS
  }

  /** What a sweep keeps: live windows always, and recent history unless the map is full. */
  predicate Survives(w: FailWindow, full: bool, now: nat, cooldown: nat) {
    Live(w, now) || (!full && SatSub(now, w.lastMs) < cooldown)
  }

  function Sweep(t: Table, now: nat, cooldown: nat): Table {
    if !SweepDue(t, now) then t
    else Table(map k | k in t.windows && Survives(t.windows[k], |t.windows| >= CAP, now, cooldown) :: t.windows[k], now)
  }

  /** Admission of an address no network of which is tracked: the fuller the table, the
      coarser the network it is counted under; a full table refuses. */
  function AdmitNew(t: Table, keys: seq<Key>, guess: Option<nat>, now: nat, cooldown: nat): (Verdict, Table)
    requires |keys| == 3
  {
    var swept := Sweep(t, now, cooldown);
    var crowding := |swept.windows| * 4 / CAP;
    if crowding >= 4 then (Refused(DivCeil(cooldown, 1000)), swept)
    else
      var key := if crowding <= 1 then keys[0] else keys[crowding - 1];
      match guess
      case None => (Admitted(key), swept)
      case Some(fp) =>
        var w := EMPTY_WINDOW.(pending := EMPTY_WINDOW.pending[0 := Pending(fp, 1, false)]);
        (Admitted(key), swept.(windows := swept.windows[key := w]))
  }

  function Admit(cooldown: nat, t: Table, ip: IpAddr, guess: Option<nat>, now: nat): (Verdict, Table) {
    var keys := KeysOf(ip);
    if cooldown == 0 then (Admitted(keys[0]), t)
    else
      match Tracked(t.windows, keys)
      case None => AdmitNew(t, keys, guess, now, cooldown)
      case Some(key) =>
        match AdmitWindow(t.windows[key], guess, now, cooldown)
        case Refuse(secs, w) => (Refused(secs), t.(windows := t.windows[key := w]))
        case Keep(w) => (Admitted(key), t.(windows := t.windows[key := w]))
        case Drop => (Admitted(key), t.(windows := t.windows - {key}))
  }

  function Release(cooldown: nat, t: Table, key: Key, fp: nat, failed: bool, now: nat): Table {
    if key !in t.windows then t
    else t.(windows := t.windows[key := ReleaseWindow(t.windows[key], fp, failed, now, cooldown)])
  }

  // ----- The locked object ----------------------------------------------------------------

  class Throttle {
    const cooldownMs: nat
    var windows: map<Key, FailWindow>
    var sweptMs: nat

    constructor (cooldownMs: nat)
      ensures this.cooldownMs == cooldownMs && Contents() == Table(map[], 0)
    {
      this.cooldownMs := cooldownMs;
      windows := map[];
      sweptMs := 0;
    }

    function Contents(): Table
      reads this
    {
      Table(windows, sweptMs)
    }

    /** One atomic admission. */
    method AdmitAt(ip: IpAddr, guess: Option<nat>, now: nat) returns (verdict: Verdict)
      modifies this
      ensures (verdict, Contents()) == Admit(cooldownMs, old(Contents()), ip, guess, now)
    {
      var keys := KeysOf(ip);
      if cooldownMs == 0 {
        return Admitted(keys[0]);
      }
      var tracked := FindTracked(keys);
      match tracked {
        case None => verdict := AdmitUntracked(keys, guess, now);
        case Some(key) => verdict := AdmitTracked(key, guess, now);
      }
    }

    method FindTracked(keys: seq<Key>) returns (key: Option<Key>)
      ensures key == Tracked(windows, keys)
    {
      var i := 0;
      while i < |keys| && keys[i] !in windows
        invariant 0 <= i <= |keys| && Tracked(windows, keys) == Tracked(windows, keys[i..])
      {
        assert keys[i..][1..] == keys[i + 1..];
        i := i + 1;
      }
      key := if i < |keys| then Some(keys[i]) else None;
    }

    method AdmitTracked(key: Key, guess: Option<nat>, now: nat) returns (verdict: Verdict)
      requires key in windows
      modifies this
      ensures sweptMs == old(sweptMs)
      ensures match AdmitWindow(old(windows)[key], guess, now, cooldownMs)
              case Refuse(secs, w) => verdict == Refused(secs) && windows == old(windows)[key := w]
              case Keep(w) => verdict == Admitted(key) && windows == old(windows)[key := w]
              case Drop => verdict == Admitted(key) && windows == old(windows) - {key}
    {
      var w := windows[key];
      if w.blockedUntilMs > now {
        return Refused(DivCeil(w.blockedUntilMs - now, 1000));
      }
      var decayed := SatSub(now, w.lastMs) >= cooldownMs;
      if decayed {
        w := w.(count := 0);
      }
      var inFlight := CountInFlight(w.pending);
      var at := |w.pending|;
      if guess.Some? {
        at := FindSlot(w.pending, guess.value);
      }
      if at < |w.pending| {
        windows := windows[key := w.(pending := w.pending[at := w.pending[at].(refs := w.pending[at].refs + 1)])];
        return Admitted(key);
      }
      windows := windows[key := w];
      if w.count + inFlight >= FAIL_LIMIT {
        return Refused(1);
      }
      match guess {
        case Some(fp) =>
          var free := FindFree(w.pending);
          if free < |w.pending| {
            windows := windows[key := w.(pending := w.pending[free := Pending(fp, 1, false)])];
          }
        case None =>
          if decayed && !(w.blockedUntilMs > now || inFlight > 0) {
            windows := windows - {key};
          }
      }
      verdict := Admitted(key);
    }

    method AdmitUntracked(keys: seq<Key>, guess: Option<nat>, now: nat) returns (verdict: Verdict)
      requires |keys| == 3
      modifies this
      ensures (verdict, Contents()) == AdmitNew(old(Contents()), keys, guess, now, cooldownMs)
    {
      if |windows| >= CAP / 2 && SatSub(now, sweptMs) >= SWEEP_INTERVAL_MS {
        sweptMs := now;
        var full := |windows| >= CAP;
        windows := map k | k in windows && Survives(windows[k], full, now, cooldownMs) :: windows[k];
      }
      var key;
      match |windows| * 4 / CAP {
        case 0 => key := keys[0];
        case 1 => key := keys[0];
        case 2 => key := keys[1];
        case 3 => key := keys[2];
        case _ => return Refused(DivCeil(cooldownMs, 1000));
      }
      if guess.Some? {
        var w := EMPTY_WINDOW.(pending := EMPTY_WINDOW.pending[0 := Pending(guess.value, 1, false)]);
        windows := windows[key := w];
      }
      verdict := Admitted(key);
    }

    /** Release one reference to the slot of `fp`. */
    method ReleaseAt(key: Key, fp: nat, failed: bool, now: nat)
      modifies this
      ensures Contents() == Release(cooldownMs, old(Contents()), key, fp, failed, now)
    {
      if key !in windows {
        return;
      }
      var w := windows[key];
      var at := FindSlot(w.pending, fp);
      if at == |w.pending| {
        assert windows[key := w] == windows;
        return;
      }
      var p := Pending(w.pending[at].fp, w.pending[at].refs - 1, w.pending[at].failed || failed);
      w := w.(pending := w.pending[at := p]);
      if p.refs > 0 || !p.failed {
        windows := windows[key := w];
        return;
      }
      if SatSub(now, w.lastMs) >= cooldownMs {
        w := w.(count := 0);
      }
      w := w.(count := w.count + 1, lastMs := now);
      if w.count >= FAIL_LIMIT {
        w := w.(blockedUntilMs := SatAdd(now, cooldownMs), count := 0);
      }
      windows := windows[key := w];
    }
  }

  method FindSlot(ps: seq<Pending>, fp: nat) returns (i: nat)
    ensures i == SlotFor(ps, fp)
  {
    i := 0;
    while i < |ps| && !(ps[i].refs > 0 && ps[i].fp == fp)
      invariant i <= |ps| && SlotFor(ps, fp) == i + SlotFor(ps[i..], fp)
    {
      assert ps[i..][1..] == ps[i + 1..];
      i := i + 1;
    }
  }

  method FindFree(ps: seq<Pending>) returns (i: nat)
    ensures i == FreeSlot(ps)
  {
    i := 0;
    while i < |ps| && ps[i].refs != 0
      invariant i <= |ps| && FreeSlot(ps) == i + FreeSlot(ps[i..])
    {
      assert ps[i..][1..] == ps[i + 1..];
      i := i + 1;
    }
  }

  method CountInFlight(ps: seq<Pending>) returns (n: nat)
    ensures n == InFlight(ps)
  {
    n := 0;
    for i := 0 to |ps|
      invariant InFlight(ps) == n + InFlight(ps[i..])
    {
      if ps[i].refs > 0 {
        n := n + 1;
      }
      assert ps[i..][1..] == ps[i + 1..];
    }
  }
}
