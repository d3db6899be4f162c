/** A node's whole advisory snapshot behind its one write lock, and what holds over any
    interleaving of the operations that swap it. */
module AdvisorySlot {
  import opened Prelude
  import opened QuarantineSlot
  import opened Overlay

  /** The loaded feed's identity, the probe overlays laid over it, and the quarantine
      state. The parsed feed itself is opaque and named by its digest. */
  datatype Advisory = Advisory(
    sha: Option<string>,
    feedEtag: Option<nat>,
    overlay: Rules,
    fixOverlay: Rules,
    fixSuperseded: set<string>,
    quarantine: Slot,
    holds: set<string>)

  /** One probe cycle's changes. */
  datatype Delta = Delta(added: seq<(string, Rule)>, withdrawn: set<string>,
                         fixAdded: seq<(string, Rule)>, fixSeen: set<string>)

  datatype Op =
    | AdoptOp(names: set<string>, epoch: nat, etag: Option<Option<nat>>)
    | ArmOp(name: string, blocked: bool)
    | ProbeOp(aligned: Option<string>, delta: Delta)
    | ReloadOp(listed: nat, sha: string)
    | HoldOp(pkg: string, held: bool)

  /** A probe cycle's swap: nothing when the baseline it was computed against is no
      longer the loaded one. */
  function ProbeSwap(a: Advisory, aligned: Option<string>, delta: Delta): Advisory {
    if a.sha != aligned then a
    else a.(overlay := Merged(a.overlay, delta.added, delta.withdrawn),
            fixOverlay := Merged(a.fixOverlay, delta.fixAdded, delta.fixSeen),
            fixSuperseded := a.fixSuperseded + delta.fixSeen)
  }

  /** A feed reload's swap: the same bytes adopt the etag only; a new baseline clears the
      overlays. Either way the quarantine is carried forward. */
  function ReloadSwap(a: Advisory, etag: nat, sha: string): Advisory {
    if a.sha == Some(sha) then a.(feedEtag := Some(etag))
    else a.(sha := Some(sha), feedEtag := Some(etag), overlay := map[], fixOverlay := map[], fixSuperseded := {})
  }

  function ApplyOp(a: Advisory, op: Op): Advisory {
    match op
    case AdoptOp(names, epoch, etag) => a.(quarantine := Adopt(a.quarantine, names, epoch, etag))
    case ArmOp(name, blocked) => a.(quarantine := Arm(a.quarantine, name, blocked))
    case ProbeOp(aligned, delta) => ProbeSwap(a, aligned, delta)
    case ReloadOp(etag, sha) => ReloadSwap(a, etag, sha)
    case HoldOp(pkg, held) => a.(holds := With(a.holds, pkg, held))
  }

  /** The locked cell itself; each method is one critical section. */
  class Cell {
    var live: Advisory

    constructor (initial: Advisory)
      ensures live == initial
    {
      live := initial;
    }

    method AdoptQuarantined(names: set<string>, epoch: nat, etag: Option<Option<nat>>) returns (refused: Refused)
      modifies this
      ensures live == ApplyOp(old(live), AdoptOp(names, epoch, etag))
      ensures refused == Verdict(old(live).quarantine, names, epoch)
      ensures refused.No? ==>
                live.quarantine.names == names && live.quarantine.epoch == epoch && !live.quarantine.unpublished
      ensures !refused.No? ==>
                && live.quarantine.names == old(live).quarantine.names
                && live.quarantine.epoch == old(live).quarantine.epoch
    {
      var q := live.quarantine;
      if epoch < q.epoch {
        refused := Older(q.epoch);
      } else if epoch == q.epoch && q.unpublished && names != q.names {
        refused := PendingArm;
      } else {
        refused := No;
      }
      var tag := q.etag;
      if etag.Some? {
        tag := etag.value;
      }
      if refused.No? {
        live := live.(quarantine := Slot(names, epoch, tag, false));
      } else {
        live := live.(quarantine := q.(etag := tag));
      }
    }

    method ArmLocalQuarantine(name: string, blocked: bool)
      modifies this
      ensures live == ApplyOp(old(live), ArmOp(name, blocked))
      ensures (name in live.quarantine.names) == blocked && live.quarantine.epoch == old(live).quarantine.epoch
    {
      var names := live.quarantine.names;
      var changed := (name in names) != blocked;
      if blocked {
        names := names + {name};
      } else {
        names := names - {name};
      }
      if !changed {
        return;
      }
      live := live.(quarantine := live.quarantine.(names := names, unpublished := true));
    }

    method ApplyProbeOverlay(aligned: Option<string>, delta: Delta)
      modifies this
      ensures live == ApplyOp(old(live), ProbeOp(aligned, delta))
    {
      if live.sha != aligned {
        return;
      }
      var overlay := MergeOverlay(live.overlay, delta.added, delta.withdrawn);
      var fixOverlay := MergeOverlay(live.fixOverlay, delta.fixAdded, delta.fixSeen);
      live := live.(overlay := overlay, fixOverlay := fixOverlay, fixSuperseded := live.fixSuperseded + delta.fixSeen);
    }

    method Reload(etag: nat, sha: string) returns (swapped: bool)
      modifies this
      ensures live == ApplyOp(old(live), ReloadOp(etag, sha))
      ensures swapped <==> old(live).sha != Some(sha)
      ensures live.quarantine == old(live).quarantine && live.sha == Some(sha) && live.feedEtag == Some(etag)
    {
      if live.sha == Some(sha) {
        live := live.(feedEtag := Some(etag));
        return false;
      }
      live := live.(sha := Some(sha), feedEtag := Some(etag), overlay := map[], fixOverlay := map[],
                    fixSuperseded := {});
      return true;
    }

    method HoldFencedQuarantine(pkg: string, held: bool)
      modifies this
      ensures live == ApplyOp(old(live), HoldOp(pkg, held))
    {
      if (pkg in live.holds) == held {
        assert With(live.holds, pkg, held) == live.holds;
        return;
      }
      live := live.(holds := if held then live.holds + {pkg} else live.holds - {pkg});
    }
  }

  // ----- Runs ------------------------------------------------------------------------

  /** Any interleaving of the swaps, with any arguments. */
  ghost predicate IsHistory(states: seq<Advisory>, ops: seq<Op>) {
    && |states| == |ops| + 1
    && forall i :: 0 <= i < |ops| ==> Swapped(states, ops, i)
  }

  ghost predicate Swapped(states: seq<Advisory>, ops: seq<Op>, i: nat)
    requires |states| == |ops| + 1 && i < |ops|
  {
    states[i + 1] == ApplyOp(states[i], ops[i])
  }

  /** The live epoch never goes down. */
  lemma {:induction false} EpochNeverDecreases(states: seq<Advisory>, ops: seq<Op>, i: nat, j: nat)
    requires IsHistory(states, ops) && i <= j <= |ops|
    ensures states[i].quarantine.epoch <= states[j].quarantine.epoch
    decreases j - i
  {
    if i < j {
      EpochNeverDecreases(states, ops, i, j - 1);
      assert Swapped(states, ops, j - 1);
    }
  }

  /** While the unpublished flag stays up, a name's membership flips only by an arm of
      that name the other way. */
  lemma FlipNeedsOppositeArm(a: Advisory, op: Op, name: string)
    requires a.quarantine.unpublished && ApplyOp(a, op).quarantine.unpublished
    requires (name in a.quarantine.names) != (name in ApplyOp(a, op).quarantine.names)
    ensures op == ArmOp(name, name !in a.quarantine.names)
  {
  }

  /** An arm that changed the set stands for as long as the flag stays up and no opposite
      arm of the name runs. */
  lemma {:induction false} ArmStands(states: seq<Advisory>, ops: seq<Op>, i: nat, j: nat, name: string, blocked: bool)
    requires IsHistory(states, ops) && i < j <= |ops|
    requires ops[i] == ArmOp(name, blocked) && (name in states[i].quarantine.names) != blocked
    requires forall m :: i < m <= j ==> states[m].quarantine.unpublished
    requires forall m :: i < m < j ==> ops[m] != ArmOp(name, !blocked)
    ensures (name in states[j].quarantine.names) == blocked
    decreases j
  {
    assert Swapped(states, ops, j - 1);
    if i + 1 < j {
      ArmStands(states, ops, i, j - 1, name, blocked);
      if (name in states[j].quarantine.names) != blocked {
        FlipNeedsOppositeArm(states[j - 1], ops[j - 1], name);
      }
    }
  }

  /** Lowering the flag needs a confirmation of the very same set or a strictly higher
      epoch, so a pending arm is never silently dropped at its own epoch. */
  lemma FlagFallsOnlyWithCause(a: Advisory, op: Op)
    requires a.quarantine.unpublished && !ApplyOp(a, op).quarantine.unpublished
    ensures op.AdoptOp?
    ensures ApplyOp(a, op).quarantine.names == op.names && ApplyOp(a, op).quarantine.epoch == op.epoch
    ensures op.epoch > a.quarantine.epoch || (op.epoch == a.quarantine.epoch && op.names == a.quarantine.names)
  {
  }

  /** The rule a probe cycle computed against baseline `sha` contributed for `name`. */
  predicate Contributed(op: Op, sha: string, fix: bool, name: string, rule: Rule) {
    op.ProbeOp? && op.aligned == Some(sha) && (name, rule) in (if fix then op.delta.fixAdded else op.delta.added)
  }

  function OverlayPart(a: Advisory, fix: bool): Rules {
    if fix then a.fixOverlay else a.overlay
  }

  /** One swap: a rule in the overlay afterwards was contributed by it, or was there before
      under the same baseline. */
  lemma RuleComesFrom(a: Advisory, op: Op, fix: bool, name: string, rule: Rule)
    requires var a' := ApplyOp(a, op); a'.sha.Some? && rule in RulesOf(OverlayPart(a', fix), name)
    ensures a.sha == ApplyOp(a, op).sha
    ensures Contributed(op, a.sha.value, fix, name, rule) || rule in RulesOf(OverlayPart(a, fix), name)
  {
    if op.ProbeOp? && a.sha == op.aligned {
      MergeReplacesExactly(OverlayPart(a, fix), if fix then op.delta.fixAdded else op.delta.added,
                           if fix then op.delta.fixSeen else op.delta.withdrawn, name, rule);
    }
  }

  /** That swap, as the last one of a history. */
  lemma RuleComesFromStep(states: seq<Advisory>, ops: seq<Op>, j: nat, fix: bool, name: string, rule: Rule)
    requires IsHistory(states, ops) && 0 < j <= |ops|
    requires states[j].sha.Some? && rule in RulesOf(OverlayPart(states[j], fix), name)
    ensures states[j - 1].sha == states[j].sha
    ensures || Contributed(ops[j - 1], states[j].sha.value, fix, name, rule)
            || rule in RulesOf(OverlayPart(states[j - 1], fix), name)
  {
    assert Swapped(states, ops, j - 1);
    RuleComesFrom(states[j - 1], ops[j - 1], fix, name, rule);
  }

  /** One baseline stays loaded from `m` to `j`. */
  ghost predicate SameBaseline(states: seq<Advisory>, m: nat, j: nat)
    requires m <= j < |states|
  {
    forall q :: m <= q <= j ==> states[q].sha == states[j].sha
  }

  /** While a baseline is loaded, every overlay rule (block rules and fix rules alike) came
      from a probe cycle computed against that very baseline, which has stayed loaded
      since. */
  lemma {:induction false} OverlayMatchesBaseline(states: seq<Advisory>, ops: seq<Op>, j: nat, fix: bool, name: string,
                                                  rule: Rule)
    returns (m: nat)
    requires IsHistory(states, ops) && j <= |ops|
    requires states[0].sha.Some? ==> OverlayPart(states[0], fix) == map[]
    requires states[j].sha.Some? && rule in RulesOf(OverlayPart(states[j], fix), name)
    ensures m < j && Contributed(ops[m], states[j].sha.value, fix, name, rule) && SameBaseline(states, m, j)
    decreases j
  {
    if j == 0 {
      assert false;
    } else {
      RuleComesFromStep(states, ops, j, fix, name, rule);
      if Contributed(ops[j - 1], states[j].sha.value, fix, name, rule) {
        m := j - 1;
      } else {
        m := OverlayMatchesBaseline(states, ops, j - 1, fix, name, rule);
      }
    }
  }

  // ----- What stays ----------------------------------------------------------------------------------

  /** Each swap touches its own part of the snapshot and nothing else. */
  lemma SwapTouchesOnly(a: Advisory, op: Op)
    ensures var a' := ApplyOp(a, op);
      && (op.AdoptOp? || op.ArmOp? ==> a' == a.(quarantine := a'.quarantine))
      && (op.HoldOp? ==> a' == a.(holds := a'.holds) && ((op.pkg in a'.holds) == op.held)
                         && forall p :: p != op.pkg ==> (p in a'.holds <==> p in a.holds))
      && (op.ProbeOp? ==>
            a' == a.(overlay := a'.overlay, fixOverlay := a'.fixOverlay, fixSuperseded := a'.fixSuperseded))
      && (op.ReloadOp? ==> a'.sha == Some(op.sha) && a'.feedEtag == Some(op.listed)
                           && a'.quarantine == a.quarantine && a'.holds == a.holds)
  {
  }

  /** The probe cycle was computed against the loaded baseline, so it is merged. */
  predicate Applied(a: Advisory, op: Op) {
    op.ProbeOp? && op.aligned == a.sha
  }

  function AddedBy(op: Op, fix: bool): seq<(string, Rule)>
    requires op.ProbeOp?
  {
    if fix then op.delta.fixAdded else op.delta.added
  }

  /** The cycle re-applied or withdrew the advisory `id`. */
  predicate Replaces(op: Op, fix: bool, id: string)
    requires op.ProbeOp?
  {
    || id in (if fix then op.delta.fixSeen else op.delta.withdrawn)
    || exists i :: 0 <= i < |AddedBy(op, fix)| && AddedBy(op, fix)[i].1.id == id
  }

  /** The reload brings other bytes than those loaded. */
  predicate NewBaseline(a: Advisory, op: Op) {
    op.ReloadOp? && a.sha != Some(op.sha)
  }

  /** The swap puts the rule in. */
  predicate PutsIn(a: Advisory, op: Op, fix: bool, name: string, rule: Rule) {
    Applied(a, op) && (name, rule) in AddedBy(op, fix)
  }

  /** The swap takes the rule out: a new baseline, or a cycle that replaces its advisory and
      does not add it again. */
  predicate TakesOut(a: Advisory, op: Op, fix: bool, name: string, rule: Rule) {
    || NewBaseline(a, op)
    || (Applied(a, op) && Replaces(op, fix, rule.id) && (name, rule) !in AddedBy(op, fix))
  }

  lemma RuleAfterSwap(a: Advisory, op: Op, fix: bool, name: string, rule: Rule)
    ensures rule in RulesOf(OverlayPart(ApplyOp(a, op), fix), name) <==>
              || PutsIn(a, op, fix, name, rule)
              || (rule in RulesOf(OverlayPart(a, fix), name) && !TakesOut(a, op, fix, name, rule))
  {
    if Applied(a, op) {
      var gone := if fix then op.delta.fixSeen else op.delta.withdrawn;
      MergeReplacesExactly(OverlayPart(a, fix), AddedBy(op, fix), gone, name, rule);
      assert rule.id in StaleIds(AddedBy(op, fix), gone) <==> Replaces(op, fix, rule.id);
    }
  }

  /** The rule was put in at `i` and nothing took it out before `j`. */
  ghost predicate StandsSince(states: seq<Advisory>, ops: seq<Op>, i: nat, j: nat, fix: bool, name: string, rule: Rule)
    requires IsHistory(states, ops) && i < j <= |ops|
  {
    && PutsIn(states[i], ops[i], fix, name, rule)
    && forall m :: i < m < j ==> !TakesOut(states[m], ops[m], fix, name, rule)
  }

  /** Some cycle put the rule in, and it has stood since. */
  ghost predicate Stands(states: seq<Advisory>, ops: seq<Op>, j: nat, fix: bool, name: string, rule: Rule)
    requires IsHistory(states, ops) && j <= |ops|
  {
    exists i :: 0 <= i < j && StandsSince(states, ops, i, j, fix, name, rule)
  }

  /** Nothing has taken the rule out from the start. */
  ghost predicate NeverTakenOut(states: seq<Advisory>, ops: seq<Op>, j: nat, fix: bool, name: string, rule: Rule)
    requires IsHistory(states, ops) && j <= |ops|
  {
    forall m :: 0 <= m < j ==> !TakesOut(states[m], ops[m], fix, name, rule)
  }

  /** Over every interleaving, an overlay holds a rule exactly when some cycle put it in, or
      it was there to begin with, and since then no new baseline was loaded and no cycle
      replaced its advisory without it. */
  lemma {:induction false} OverlayIsWhatStands(states: seq<Advisory>, ops: seq<Op>, j: nat, fix: bool, name: string,
                                               rule: Rule)
    requires IsHistory(states, ops) && j <= |ops|
    ensures rule in RulesOf(OverlayPart(states[j], fix), name) <==>
              || Stands(states, ops, j, fix, name, rule)
              || (rule in RulesOf(OverlayPart(states[0], fix), name) && NeverTakenOut(states, ops, j, fix, name, rule))
    decreases j
  {
    if j > 0 {
      OverlayIsWhatStands(states, ops, j - 1, fix, name, rule);
      RuleAfterStep(states, ops, j - 1, fix, name, rule);
      StandsOneMore(states, ops, j - 1, fix, name, rule);
    }
  }

  lemma RuleAfterStep(states: seq<Advisory>, ops: seq<Op>, m: nat, fix: bool, name: string, rule: Rule)
    requires IsHistory(states, ops) && m < |ops|
    ensures rule in RulesOf(OverlayPart(states[m + 1], fix), name) <==>
              || PutsIn(states[m], ops[m], fix, name, rule)
              || (rule in RulesOf(OverlayPart(states[m], fix), name) && !TakesOut(states[m], ops[m], fix, name, rule))
  {
    assert Swapped(states, ops, m);
    RuleAfterSwap(states[m], ops[m], fix, name, rule);
  }

  /** To stand one step longer is to be put in by it, or to stand so far and not be taken
      out. */
  lemma StandsOneMore(states: seq<Advisory>, ops: seq<Op>, m: nat, fix: bool, name: string, rule: Rule)
    requires IsHistory(states, ops) && m < |ops|
    ensures Stands(states, ops, m + 1, fix, name, rule) <==>
              || PutsIn(states[m], ops[m], fix, name, rule)
              || (Stands(states, ops, m, fix, name, rule) && !TakesOut(states[m], ops[m], fix, name, rule))
  {
    if PutsIn(states[m], ops[m], fix, name, rule) {
      assert StandsSince(states, ops, m, m + 1, fix, name, rule);
    }
    if Stands(states, ops, m, fix, name, rule) && !TakesOut(states[m], ops[m], fix, name, rule) {
      var i :| 0 <= i < m && StandsSince(states, ops, i, m, fix, name, rule);
      assert StandsSince(states, ops, i, m + 1, fix, name, rule);
    }
    var last := m + 1;
    if Stands(states, ops, last, fix, name, rule) {
      var i :| 0 <= i < last && StandsSince(states, ops, i, last, fix, name, rule);
      assert i < m ==> StandsSince(states, ops, i, m, fix, name, rule);
    }
  }

  /** An aligned cycle at `i` saw the advisory, and no new baseline came before `j`. */
  ghost predicate SeenSince(states: seq<Advisory>, ops: seq<Op>, i: nat, j: nat, id: string)
    requires IsHistory(states, ops) && i < j <= |ops|
  {
    && Applied(states[i], ops[i]) && id in ops[i].delta.fixSeen
    && forall m :: i < m < j ==> !NewBaseline(states[m], ops[m])
  }

  ghost predicate Seen(states: seq<Advisory>, ops: seq<Op>, j: nat, id: string)
    requires IsHistory(states, ops) && j <= |ops|
  {
    exists i :: 0 <= i < j && SeenSince(states, ops, i, j, id)
  }

  /** The superseded advisories are those the aligned cycles since the last new baseline saw. */
  lemma {:induction false} SupersededIsWhatWasSeen(states: seq<Advisory>, ops: seq<Op>, j: nat, id: string)
    requires IsHistory(states, ops) && j <= |ops|
    ensures id in states[j].fixSuperseded <==>
              || Seen(states, ops, j, id)
              || (id in states[0].fixSuperseded && forall m :: 0 <= m < j ==> !NewBaseline(states[m], ops[m]))
    decreases j
  {
    if j > 0 {
      SupersededIsWhatWasSeen(states, ops, j - 1, id);
      assert Swapped(states, ops, j - 1);
      SeenOneMore(states, ops, j - 1, id);
    }
  }

  lemma SeenOneMore(states: seq<Advisory>, ops: seq<Op>, m: nat, id: string)
    requires IsHistory(states, ops) && m < |ops|
    ensures Seen(states, ops, m + 1, id) <==>
              || (Applied(states[m], ops[m]) && id in ops[m].delta.fixSeen)
              || (Seen(states, ops, m, id) && !NewBaseline(states[m], ops[m]))
  {
    if Applied(states[m], ops[m]) && id in ops[m].delta.fixSeen {
      assert SeenSince(states, ops, m, m + 1, id);
    }
    if Seen(states, ops, m, id) && !NewBaseline(states[m], ops[m]) {
      var i :| 0 <= i < m && SeenSince(states, ops, i, m, id);
      assert SeenSince(states, ops, i, m + 1, id);
    }
    var last := m + 1;
    if Seen(states, ops, last, id) {
      var i :| 0 <= i < last && SeenSince(states, ops, i, last, id);
      assert i < m ==> SeenSince(states, ops, i, m, id);
    }
  }
}
