/** Whole-run guarantees of the quarantine protocol with one selected bucket: one epoch
    names one set, the stored set is the fold of the landed edits, what lands is never
    stale, and exactly which edits survive a sweep. */
module QuarantineTheorems {
  import opened Prelude
  import opened QuarantineSlot
  import opened QuarantineProtocol
  import opened QuarantineInvariant

  /** A run from a fleet where nothing was ever published, in which every publish and
      every sweep walk works against bucket `sel` and epochs stay below the 64-bit
      ceiling. Arms, polls, restarts, write-throughs and re-seeds are unrestricted. */
  ghost predicate FleetRun(states: seq<State>, steps: seq<Step>, sel: nat) {
    && IsRun(states, steps) && Initial(states[0]) && sel in states[0].buckets
    && (forall i :: 0 <= i < |steps| ==> PublishesOn(steps[i], sel))
    && |states[|steps|].log| < U64_MAX
  }

  /** The set a reader finds on a bucket; empty when there is nothing to read. */
  function SetOn(b: Bucket): set<string> {
    if b.current.Some? && b.current.value.body.Readable? then b.current.value.body.names else {}
  }

  function EpochOn(b: Bucket): nat {
    if b.current.Some? && b.current.value.body.Readable? then b.current.value.body.epoch else 0
  }

  // ----- Every reachable state satisfies the invariant -------------------------------

  lemma EvolvesAt(states: seq<State>, steps: seq<Step>, i: nat)
    requires IsRun(states, steps) && i < |steps|
    ensures Evolves(states[i], steps[i], states[i + 1])
  {
    assert Joined(states, steps, i);
    StepEvolves(states[i], steps[i]);
  }

  lemma {:induction false} LogsGrow(states: seq<State>, steps: seq<Step>, i: nat, j: nat)
    requires IsRun(states, steps) && i <= j <= |steps|
    ensures states[i].log <= states[j].log
    decreases j - i
  {
    if i < j {
      LogsGrow(states, steps, i, j - 1);
      EvolvesAt(states, steps, j - 1);
    }
  }

  lemma InitialInv(s: State, sel: nat)
    requires Initial(s) && sel in s.buckets
    ensures Inv(s, sel)
  {
    forall b | b in s.buckets
      ensures BucketOk(s.log, s.buckets[b])
    {
      assert s.buckets[b].current.None? ==> s.buckets[b].casNames == map[] && s.buckets[b].listNames == map[];
    }
  }

  lemma {:induction false} RunInv(states: seq<State>, steps: seq<Step>, sel: nat, i: nat)
    requires FleetRun(states, steps, sel) && i <= |steps|
    ensures Inv(states[i], sel) && |states[i].log| < U64_MAX
    decreases i
  {
    LogsGrow(states, steps, i, |steps|);
    if i == 0 {
      InitialInv(states[0], sel);
    } else {
      RunInv(states, steps, sel, i - 1);
      InvAfter(states, steps, sel, i);
    }
  }

  lemma InvAfter(states: seq<State>, steps: seq<Step>, sel: nat, i: nat)
    requires IsRun(states, steps) && 0 < i <= |steps| && PublishesOn(steps[i - 1], sel)
    requires Inv(states[i - 1], sel) && |states[i - 1].log| < U64_MAX
    ensures Inv(states[i], sel)
  {
    assert Joined(states, steps, i - 1);
    StepKeepsInv(states[i - 1], sel, steps[i - 1]);
  }

  // ----- One epoch, one set ------------------------------------------------------------

  /** Every readable bucket copy, and every node whose unpublished flag is down, holds a
      published pair. */
  ghost predicate HoldsPublished(s: State) {
    && (forall b :: b in s.buckets ==> IsPublished(s.log, SetOn(s.buckets[b]), EpochOn(s.buckets[b])))
    && (forall n :: n in s.slots && !s.slots[n].unpublished ==>
          IsPublished(s.log, s.slots[n].names, s.slots[n].epoch))
  }

  lemma BucketPublished(log: seq<Entry>, b: Bucket)
    requires BucketOk(log, b)
    ensures IsPublished(log, SetOn(b), EpochOn(b))
  {
  }

  lemma InvPublished(s: State, sel: nat)
    requires Inv(s, sel)
    ensures HoldsPublished(s)
  {
    forall b | b in s.buckets
      ensures IsPublished(s.log, SetOn(s.buckets[b]), EpochOn(s.buckets[b]))
    {
      BucketPublished(s.log, s.buckets[b]);
    }
    forall n | n in s.slots && !s.slots[n].unpublished
      ensures IsPublished(s.log, s.slots[n].names, s.slots[n].epoch)
    {
      assert SlotOk(s.log, s.slots[n]);
    }
  }

  lemma RunPublished(states: seq<State>, steps: seq<Step>, sel: nat, i: nat)
    requires FleetRun(states, steps, sel) && i <= |steps|
    ensures HoldsPublished(states[i])
  {
    RunInv(states, steps, sel, i);
    InvPublished(states[i], sel);
  }

  /** Two copies at one epoch, on buckets or nodes, are the same set. */
  ghost predicate NoFork(s: State) {
    && (forall b, c :: b in s.buckets && c in s.buckets && EpochOn(s.buckets[b]) == EpochOn(s.buckets[c]) ==>
          SetOn(s.buckets[b]) == SetOn(s.buckets[c]))
    && (forall b, n :: b in s.buckets && n in s.slots && !s.slots[n].unpublished
                       && EpochOn(s.buckets[b]) == s.slots[n].epoch ==>
          SetOn(s.buckets[b]) == s.slots[n].names)
    && (forall m, n :: m in s.slots && n in s.slots && !s.slots[m].unpublished && !s.slots[n].unpublished
                       && s.slots[m].epoch == s.slots[n].epoch ==>
          s.slots[m].names == s.slots[n].names)
  }

  lemma PublishedNeverForks(s: State)
    requires HoldsPublished(s)
    ensures NoFork(s)
  {
  }

  lemma EpochsCountUp(states: seq<State>, steps: seq<Step>, sel: nat, i: nat)
    requires FleetRun(states, steps, sel) && i <= |steps|
    ensures forall k :: 0 <= k < |states[i].log| ==> states[i].log[k].epoch == k + 1
  {
    RunInv(states, steps, sel, i);
    forall k | 0 <= k < |states[i].log| ensures states[i].log[k].epoch == k + 1 {
      assert EntryAt(states[i].log, k);
    }
  }

  /** Published epochs count up by exactly one; every readable bucket copy, and every
      node whose unpublished flag is down, holds a published pair; so two copies at one
      epoch, on buckets or nodes, are the same set. */
  lemma OneEpochOneSet(states: seq<State>, steps: seq<Step>, sel: nat, i: nat)
    requires FleetRun(states, steps, sel) && i <= |steps|
    ensures forall k :: 0 <= k < |states[i].log| ==> states[i].log[k].epoch == k + 1
    ensures HoldsPublished(states[i]) && NoFork(states[i])
  {
    EpochsCountUp(states, steps, sel, i);
    RunPublished(states, steps, sel, i);
    PublishedNeverForks(states[i]);
  }

  // ----- No edit is lost -----------------------------------------------------------------

  /** The landed edits replayed in the order their conditional writes landed. */
  function Fold(log: seq<Entry>): set<string> {
    if log == [] then {} else Effect(log[|log| - 1].edit, log[|log| - 1].verdict, Fold(log[..|log| - 1]))
  }

  /** The last word on `name` after `k` publishes: what its last landed edit decided, and
      where a sweep landed, the word before it if that is not the word there was at the
      sweep's base, else what the sweep derived. */
  function LastWord(log: seq<Entry>, k: nat, name: string): bool
    requires k <= |log|
  {
    if k == 0 then false
    else
      var before := LastWord(log, k - 1, name);
      match log[k - 1].edit
      case Sweep(derived, _, baseEpoch) =>
        if before != LastWord(log, if baseEpoch < k then baseEpoch else k - 1, name) then before else name in derived
      case edit => if edit.name == name then log[k - 1].verdict else before
  }

  lemma LogPrefixOk(log: seq<Entry>, init: seq<Entry>)
    requires LogOk(log) && init <= log
    ensures LogOk(init)
  {
    forall k | 0 <= k < |init|
      ensures EntryAt(init, k)
    {
      assert EntryAt(log, k);
      StoredGrows(init, log, k);
      if init[k].edit.Sweep? {
        StoredGrows(init, log, init[k].edit.baseEpoch);
      }
    }
  }

  lemma {:induction false} StoredIsFold(log: seq<Entry>)
    requires LogOk(log)
    ensures Stored(log, |log|) == Fold(log)
  {
    if log != [] {
      var init := log[..|log| - 1];
      LogPrefixOk(log, init);
      StoredIsFold(init);
      assert EntryAt(log, |init|);
      StoredGrows(init, log, |init|);
    }
  }

  lemma EntryDecides(e: Entry, k: nat, prev: set<string>, name: string)
    requires EntryOk(e, k, prev)
    ensures name in e.names <==>
      if !e.edit.Sweep? then (if e.edit.name == name then e.verdict else name in prev)
      else if (name in prev) != (name in e.edit.base) then name in prev
      else name in e.edit.derived
  {
  }

  lemma {:induction false} StoredIsLastWord(log: seq<Entry>, k: nat, name: string)
    requires LogOk(log) && k <= |log|
    ensures name in Stored(log, k) <==> LastWord(log, k, name)
    decreases k
  {
    if k > 0 {
      var e := log[k - 1];
      assert EntryAt(log, k - 1);
      EntryDecides(e, k - 1, Stored(log, k - 1), name);
      StoredIsLastWord(log, k - 1, name);
      if e.edit.Sweep? {
        StoredIsLastWord(log, e.edit.baseEpoch, name);
      }
    }
  }

  /** At every moment the selected bucket stores exactly the fold of the landed edits, and
      each name's membership is the last word on it; each single-name edit writes what it
      decided for its own name and leaves every other name alone. */
  lemma StoredIsFoldOfEdits(states: seq<State>, steps: seq<Step>, sel: nat, i: nat)
    requires FleetRun(states, steps, sel) && i <= |steps|
    ensures sel in states[i].buckets && SetOn(states[i].buckets[sel]) == Fold(states[i].log)
    ensures forall n :: n in SetOn(states[i].buckets[sel]) <==> LastWord(states[i].log, |states[i].log|, n)
    ensures forall k :: 0 <= k < |states[i].log| && !states[i].log[k].edit.Sweep? ==>
              TouchesOnly(states[i].log[k], Stored(states[i].log, k))
  {
    RunLogOk(states, steps, sel, i);
    var log := states[i].log;
    StoredIsFold(log);
    forall n
      ensures n in Stored(log, |log|) <==> LastWord(log, |log|, n)
    {
      StoredIsLastWord(log, |log|, n);
    }
    forall k | 0 <= k < |log| && !log[k].edit.Sweep?
      ensures TouchesOnly(log[k], Stored(log, k))
    {
      assert EntryAt(log, k);
    }
  }

  /** A single-name edit gives its own name the membership it decided, for a `One` the one
      asked for, and leaves every other name as it was. */
  ghost predicate TouchesOnly(e: Entry, prev: set<string>)
    requires !e.edit.Sweep?
  {
    && (e.edit.name in e.names) == e.verdict
    && (e.edit.One? ==> e.verdict == e.edit.blocked)
    && forall n :: n != e.edit.name ==> (n in e.names <==> n in prev)
  }

  lemma RunLogOk(states: seq<State>, steps: seq<Step>, sel: nat, i: nat)
    requires FleetRun(states, steps, sel) && i <= |steps|
    ensures LogOk(states[i].log)
    ensures sel in states[i].buckets && SetOn(states[i].buckets[sel]) == Stored(states[i].log, |states[i].log|)
  {
    RunInv(states, steps, sel, i);
    SelectedEpoch(states[i], sel);
  }

  /** An edit that lands was read, decided and written with no other publish in between,
      and changes the stored set. */
  lemma LandedEditIsNeverStale(states: seq<State>, steps: seq<Step>, sel: nat, i: nat)
    requires FleetRun(states, steps, sel) && i < |steps| && steps[i].CasLands?
    ensures sel in states[i].buckets && CanCas(states[i], steps[i])
    ensures var t := states[i].tasks[steps[i].id];
            && t.phase.view.epoch == t.phase.looked == |states[i].log|
            && t.phase.view.names == t.phase.have == SetOn(states[i].buckets[sel]) != t.phase.next
            && t.phase.next == Effect(t.edit, t.phase.verdict, t.phase.have)
            && t.phase.from == |states[i].log|
    ensures forall n :: n in states[i].slots ==> states[i].slots[n].epoch <= states[i].tasks[steps[i].id].phase.from
  {
    RunInv(states, steps, sel, i);
    assert Joined(states, steps, i);
    forall n | n in states[i].slots ensures states[i].slots[n].epoch <= |states[i].log| {
      assert SlotOk(states[i].log, states[i].slots[n]);
    }
    CasFindsLatest(states[i], sel, steps[i]);
    assert TaskOk(states[i].log, states[i].buckets, sel, states[i].tasks[steps[i].id]);
  }

  // ----- How a call came to what it writes -------------------------------------------------

  /** The step of its own attempt that put a settled call into the phase it is in. */
  lemma {:induction false} PhaseEntered(states: seq<State>, steps: seq<Step>, id: nat, i: nat) returns (m: nat)
    requires IsRun(states, steps) && Initial(states[0]) && i <= |steps|
    requires id in states[i].tasks && Settled(states[i].tasks[id])
    ensures m < i && OwnAttempt(steps[m], id)
    ensures forall k :: m < k <= i ==> id in states[k].tasks && SamePhase(states[k].tasks[id], states[i].tasks[id])
    decreases i
  {
    assert i > 0;
    m := i - 1;
    if !OwnAttempt(steps[m], id) {
      assert Joined(states, steps, m);
      StepLeavesSettled(states[m], steps[m], id);
      m := PhaseEntered(states, steps, id, i - 1);
    }
  }

  /** The two states around that step. */
  lemma EnteredBy(states: seq<State>, steps: seq<Step>, id: nat, i: nat) returns (m: nat)
    requires IsRun(states, steps) && Initial(states[0]) && i <= |steps|
    requires id in states[i].tasks && Settled(states[i].tasks[id])
    ensures m < i && OwnAttempt(steps[m], id) && CanAttempt(states[m], steps[m])
    ensures SamePhase(states[m].tasks[id].(phase := NextPhase(states[m], steps[m])), states[i].tasks[id])
  {
    m := PhaseEntered(states, steps, id, i);
    assert Joined(states, steps, m);
    assert SamePhase(states[m + 1].tasks[id], states[i].tasks[id]);
  }

  /** Where a stamped call was stamped: just above what it read and its node's epoch then. */
  lemma StampedAt(states: seq<State>, steps: seq<Step>, id: nat, i: nat) returns (m: nat)
    requires IsRun(states, steps) && Initial(states[0]) && i <= |steps|
    requires id in states[i].tasks && states[i].tasks[id].Publish? && states[i].tasks[id].phase.Stamped?
    ensures m < i && steps[m] == Stamp(id) && id in states[m].tasks && states[i].tasks[id].node in states[m].slots
    ensures var t := states[i].tasks[id]; var p := t.phase;
      && states[m].tasks[id].Publish?
      && SamePhase(states[m].tasks[id],
                   t.(phase := Derived(p.view, p.behind, p.seen, p.have, p.from, p.next, p.verdict, p.looked)))
      && p.live == states[m].slots[t.node].epoch && p.epoch == StampEpoch(p.view, p.live)
  {
    m := EnteredBy(states, steps, id, i);
  }

  /** Where a call decided its verdict: with the durable status and the log of that moment. */
  lemma DecidedAt(states: seq<State>, steps: seq<Step>, id: nat, i: nat) returns (m: nat)
    requires IsRun(states, steps) && Initial(states[0]) && i <= |steps|
    requires id in states[i].tasks && states[i].tasks[id].Publish? && states[i].tasks[id].phase.Derived?
    ensures m < i && steps[m] == Decide(id) && id in states[m].tasks
    ensures var t := states[i].tasks[id]; var p := t.phase;
      && SamePhase(states[m].tasks[id], t.(phase := Based(p.view, p.behind, p.seen, p.have, p.from)))
      && p.verdict == DecideVerdict(t.edit, p.have, states[m].status) && p.looked == |states[m].log|
  {
    m := EnteredBy(states, steps, id, i);
  }

  /** Where a call took the set it edits: the node's, if the bucket was behind, else the
      bucket's. */
  lemma BasedAt(states: seq<State>, steps: seq<Step>, id: nat, i: nat) returns (m: nat)
    requires IsRun(states, steps) && Initial(states[0]) && i <= |steps|
    requires id in states[i].tasks && states[i].tasks[id].Publish? && states[i].tasks[id].phase.Based?
    ensures m < i && steps[m] == Rebase(id) && states[i].tasks[id].node in states[m].slots
    ensures var p := states[i].tasks[id].phase; var slot := states[m].slots[states[i].tasks[id].node];
      && p.have == (if p.behind then slot.names else p.view.names)
      && p.from == (if p.behind then slot.epoch else p.view.epoch)
  {
    m := EnteredBy(states, steps, id, i);
  }

  /** A derive that lands wrote the durable status of its name as it stood at an instant of
      the call after which no other publish landed. */
  lemma DeriveWritesCurrentStatus(states: seq<State>, steps: seq<Step>, sel: nat, i: nat) returns (m: nat)
    requires FleetRun(states, steps, sel) && i < |steps| && steps[i].CasLands?
    requires CanCas(states[i], steps[i]) && states[i].tasks[steps[i].id].edit.Derive?
    ensures m < i && steps[m] == Decide(steps[i].id) && states[m].log == states[i].log
    ensures var t := states[i].tasks[steps[i].id];
            t.phase.verdict == (t.edit.name in states[m].status && states[m].status[t.edit.name])
  {
    var stamp := StampedAt(states, steps, steps[i].id, i);
    m := DecidedAt(states, steps, steps[i].id, stamp);
    LogsGrow(states, steps, m, i);
    LandedEditIsNeverStale(states, steps, sel, i);
  }

  /** Work that stays in flight keeps its identity. */
  lemma {:induction false} TaskPersists(states: seq<State>, steps: seq<Step>, id: nat, i: nat, j: nat)
    requires IsRun(states, steps) && i <= j <= |steps|
    requires forall m :: i <= m <= j ==> id in states[m].tasks
    ensures SameTask(states[i].tasks[id], states[j].tasks[id])
    decreases j - i
  {
    if i < j {
      TaskPersists(states, steps, id, i, j - 1);
      EvolvesAt(states, steps, j - 1);
      assert id in states[j - 1].tasks && id in states[j].tasks;
    }
  }

  /** The log grows one entry at a time, so it passes through every length in between. */
  lemma {:induction false} LengthReached(states: seq<State>, steps: seq<Step>, i: nat, j: nat, k: nat) returns (m: nat)
    requires IsRun(states, steps) && i <= j <= |steps| && |states[i].log| <= k <= |states[j].log|
    ensures i <= m <= j && |states[m].log| == k
    decreases j - i
  {
    if |states[i].log| == k {
      m := i;
    } else {
      EvolvesAt(states, steps, i);
      m := LengthReached(states, steps, i + 1, j, k);
    }
  }

  lemma CallBegins(states: seq<State>, steps: seq<Step>, i: nat)
    requires IsRun(states, steps) && i < |steps| && (steps[i].BeginPublish? || steps[i].EndWalk?)
    ensures steps[i].id in states[i + 1].tasks
    ensures var t := states[i + 1].tasks[steps[i].id];
            t.Publish? && t.began == |states[i + 1].log| && (steps[i].BeginPublish? ==> t.edit == steps[i].edit)
  {
    assert Joined(states, steps, i);
  }

  lemma ReturnedLanded(states: seq<State>, steps: seq<Step>, sel: nat, id: nat, j: nat)
    requires FleetRun(states, steps, sel) && j <= |steps| && id in states[j].tasks
    requires states[j].tasks[id].Publish? && states[j].tasks[id].phase.Returned? && states[j].tasks[id].phase.ok
    ensures var t := states[j].tasks[id];
            t.began <= t.phase.at && Landed(states[j].log, t.edit, t.phase.verdict, t.phase.at)
  {
    RunInv(states, steps, sel, j);
    assert TaskOk(states[j].log, states[j].buckets, sel, states[j].tasks[id]);
  }

  /** The selected bucket stores the last publish. */
  lemma SelectedEpoch(s: State, sel: nat)
    requires Inv(s, sel)
    ensures EpochOn(s.buckets[sel]) == |s.log| && SetOn(s.buckets[sel]) == Stored(s.log, |s.log|)
  {
  }

  /** Every single-name publish that returns Ok has an instant inside the call at which the
      selected bucket stores the membership it decided on, which for a `One` is the
      requested one. */
  lemma OkHasAnInstant(states: seq<State>, steps: seq<Step>, sel: nat, id: nat, i: nat, j: nat) returns (m: nat)
    requires FleetRun(states, steps, sel) && i < j <= |steps| && steps[i].BeginPublish? && steps[i].id == id
    requires !steps[i].edit.Sweep? && forall q :: i < q <= j ==> id in states[q].tasks
    requires states[j].tasks[id].Publish? && states[j].tasks[id].phase.Returned? && states[j].tasks[id].phase.ok
    ensures i < m <= j && sel in states[m].buckets
    ensures (steps[i].edit.name in SetOn(states[m].buckets[sel])) == states[j].tasks[id].phase.verdict
    ensures steps[i].edit.One? ==> states[j].tasks[id].phase.verdict == steps[i].edit.blocked
  {
    CallBegins(states, steps, i);
    TaskPersists(states, steps, id, i + 1, j);
    ReturnedLanded(states, steps, sel, id, j);
    m := StoredAtSomeInstant(states, steps, sel, i + 1, j, states[j].tasks[id].phase.at);
  }

  /** Each set of the published history was what the selected bucket stored at some instant. */
  lemma StoredAtSomeInstant(states: seq<State>, steps: seq<Step>, sel: nat, i: nat, j: nat, k: nat) returns (m: nat)
    requires FleetRun(states, steps, sel) && i <= j <= |steps| && |states[i].log| <= k <= |states[j].log|
    ensures i <= m <= j && sel in states[m].buckets && SetOn(states[m].buckets[sel]) == Stored(states[j].log, k)
  {
    m := LengthReached(states, steps, i, j, k);
    RunInv(states, steps, sel, m);
    SelectedEpoch(states[m], sel);
    LogsGrow(states, steps, m, j);
    StoredGrows(states[m].log, states[j].log, k);
  }

  // ----- Sweeps merge ------------------------------------------------------------------

  /** Every landed sweep: for each name, what was stored if that differs from the sweep's
      base, else what the sweep derived. */
  lemma SweepsMerge(states: seq<State>, steps: seq<Step>, sel: nat, i: nat, k: nat, name: string)
    requires FleetRun(states, steps, sel) && i <= |steps| && k < |states[i].log| && states[i].log[k].edit.Sweep?
    ensures var e := states[i].log[k]; var prev := Stored(states[i].log, k);
            name in e.names <==>
              if (name in prev) != (name in e.edit.base) then name in prev else name in e.edit.derived
  {
    RunLogOk(states, steps, sel, i);
    assert EntryAt(states[i].log, k);
    EntryDecides(states[i].log[k], k, Stored(states[i].log, k), name);
  }

  /** A landed sweep leaves `n` as it finds it exactly when `n` has moved since the sweep's
      base or the sweep derived it the way it is. */
  lemma SweepKeepsIff(states: seq<State>, steps: seq<Step>, sel: nat, i: nat, k: nat, n: string)
    requires FleetRun(states, steps, sel) && i <= |steps| && k < |states[i].log| && states[i].log[k].edit.Sweep?
    ensures var e := states[i].log[k]; var prev := Stored(states[i].log, k);
      && e.edit.baseEpoch <= k && e.edit.base == Stored(states[i].log, e.edit.baseEpoch)
      && ((n in e.names) == (n in prev) <==> (n in prev) != (n in e.edit.base) || (n in e.edit.derived) == (n in prev))
  {
    RunLogOk(states, steps, sel, i);
    assert EntryAt(states[i].log, k);
    EntryDecides(states[i].log[k], k, Stored(states[i].log, k), n);
  }

  /** An edit that lets stand whether `n` is in the set: a sweep does if that was not yet so
      at its base or it derived the same. */
  predicate LetsStand(edit: Edit, n: string, blocked: bool) {
    edit.Sweep? ==> (n in edit.base) != blocked || (n in edit.derived) == blocked
  }

  /** No single-name edit of `n` lands after the one at `j`, up to `end`. */
  ghost predicate LastEditAt(log: seq<Entry>, n: string, j: nat, end: nat) {
    && j < end <= |log| && !log[j].edit.Sweep? && log[j].edit.name == n
    && forall k :: j < k < end ==> log[k].edit.Sweep? || log[k].edit.name != n
  }

  /** From `j` up to `end` the stored membership of `n` is what the edit at `j` decided. */
  ghost predicate InForce(log: seq<Entry>, n: string, j: nat, end: nat)
    requires j < end <= |log|
  {
    forall q :: j <= q < end ==> ((n in log[q].names) == log[j].verdict)
  }

  ghost predicate AllLetStand(log: seq<Entry>, n: string, j: nat, end: nat)
    requires j < end <= |log|
  {
    forall k :: j < k < end ==> LetsStand(log[k].edit, n, log[j].verdict)
  }

  lemma StandsThroughIff(e: Entry, k: nat, prev: set<string>, n: string)
    requires EntryOk(e, k, prev) && (e.edit.Sweep? || e.edit.name != n)
    ensures (n in e.names) == (n in prev) <==> LetsStand(e.edit, n, n in prev)
  {
  }

  lemma EditTakesForce(e: Entry, k: nat, prev: set<string>)
    requires EntryOk(e, k, prev) && !e.edit.Sweep?
    ensures (e.edit.name in e.names) == e.verdict
  {
  }

  lemma {:induction false} SurvivesIff(log: seq<Entry>, n: string, j: nat, end: nat)
    requires LogOk(log) && LastEditAt(log, n, j, end)
    ensures InForce(log, n, j, end) <==> AllLetStand(log, n, j, end)
    decreases end
  {
    var last := end - 1;
    assert EntryAt(log, last);
    if j == last {
      EditTakesForce(log[j], j, Stored(log, j));
    } else {
      SurvivesIff(log, n, j, last);
      StandsThroughIff(log[last], last, Stored(log, last), n);
      assert Stored(log, last) == log[last - 1].names;
    }
  }

  /** An edit of `n` stays in force for as long as no later edit of `n` lands exactly when
      every sweep that lands meanwhile found `n` otherwise at its base or derived it the
      same. The other sweeps undo it, also where it landed after their base. */
  lemma EditSurvivesIff(states: seq<State>, steps: seq<Step>, sel: nat, i: nat, n: string, j: nat, end: nat)
    requires FleetRun(states, steps, sel) && i <= |steps| && LastEditAt(states[i].log, n, j, end)
    ensures InForce(states[i].log, n, j, end) <==> AllLetStand(states[i].log, n, j, end)
  {
    RunLogOk(states, steps, sel, i);
    SurvivesIff(states[i].log, n, j, end);
  }

  /** A sweep deciding over an empty stand-in goes on to write exactly when it derived
      something. */
  lemma SweepOverNothing(s: State, id: nat)
    requires CanAttempt(s, Decide(id)) && s.tasks[id].edit.Sweep?
    requires var p := s.tasks[id].phase; !p.view.isReal && p.have == {} && !p.behind
    ensures var s' := ApplyAttempt(s, Decide(id)); var empty := s.tasks[id].edit.derived == {};
            (CanAttempt(s', Stamp(id)) <==> !empty) && (CanReturn(s', Confirm(id)) <==> empty)
  {
  }
}
