/** What the quarantine protocol keeps with no assumption on which buckets publishes go
    to: through failovers no bucket ever moves back, and where every landed edit comes
    from. */
module QuarantineFailover {
  import opened Prelude
  import opened QuarantineSlot
  import opened QuarantineProtocol
  import opened QuarantineInvariant
  import opened QuarantineTheorems

  // ----- What calls know about the buckets they hold tokens for ------------------------------

  /** A view's token names the very body that was read. */
  predicate ViewAnchored(b: Bucket, edit: Edit, view: View) {
    && (!view.isReal ==> view.names == {} && view.epoch == 0)
    && (view.token.None? ==> !view.isReal)
    && (view.token.Some? ==>
          && view.token.value in b.casNames
          && (if view.isReal then b.casNames[view.token.value] == Readable(view.names, view.epoch)
              else b.casNames[view.token.value].Unreadable? && edit.Sweep?))
  }

  /** A seed's token names an older or unreadable body. */
  predicate SeedAnchored(buckets: map<nat, Bucket>, sd: Seeding) {
    && sd.epoch > 0
    && (sd.held.Holding? && sd.held.token.Some? ==>
          && sd.queue != [] && sd.queue[0] in buckets && sd.held.token.value in buckets[sd.queue[0]].casNames
          && var body := buckets[sd.queue[0]].casNames[sd.held.token.value];
             body.Readable? ==> body.epoch < sd.epoch)
  }

  /** The set an edit is applied to: the bucket's as read, or the node's, no older than the
      epoch the bucket was judged against; `live` is the node's epoch by now. */
  predicate BasisAnchored(view: View, behind: bool, seen: nat, have: set<string>, from: nat, live: nat) {
    && seen <= live
    && (if behind then seen <= from <= live else have == view.names && from == view.epoch)
  }

  /** `n` bounds every epoch in play; `live` is the calling node's epoch. */
  predicate PhaseAnchored(n: nat, b: Bucket, buckets: map<nat, Bucket>, live: nat, edit: Edit, p: Phase) {
    match p
    case Ready => true
    case Fetched(view) => ViewAnchored(b, edit, view) && view.epoch <= n
    case Judged(view, behind, seen) =>
      ViewAnchored(b, edit, view) && view.epoch <= n && seen <= live && (behind <==> view.epoch < seen && !edit.Sweep?)
    case Based(view, behind, seen, have, from) =>
      && ViewAnchored(b, edit, view) && view.epoch <= n && (behind <==> view.epoch < seen && !edit.Sweep?)
      && BasisAnchored(view, behind, seen, have, from, live)
    case Derived(view, behind, seen, have, from, next, verdict, _) =>
      && ViewAnchored(b, edit, view) && view.epoch <= n && (behind <==> view.epoch < seen && !edit.Sweep?)
      && BasisAnchored(view, behind, seen, have, from, live) && next == NextSet(edit, view, have, verdict)
    case Stamped(view, behind, seen, have, from, next, verdict, _, stampedAbove, epoch) =>
      && ViewAnchored(b, edit, view) && (behind <==> view.epoch < seen && !edit.Sweep?)
      && BasisAnchored(view, behind, seen, have, from, stampedAbove) && next == NextSet(edit, view, have, verdict)
      && epoch == Max(view.epoch, stampedAbove) + 1 <= n + 1
    case Through(sd, _) => sd.epoch <= n && SeedAnchored(buckets, sd)
    case Returned(_, _, _) => true
  }

  predicate TaskAnchored(n: nat, buckets: map<nat, Bucket>, slots: map<nat, Slot>, t: Task) {
    match t
    case Walk(node, bucket, _, _) => node in slots && bucket in buckets
    case Publish(node, bucket, edit, _, _, phase, _) =>
      node in slots && bucket in buckets && PhaseAnchored(n, buckets[bucket], buckets, slots[node].epoch, edit, phase)
    case Poll(_, _, _, _, progress) => progress.Got? ==> progress.epoch <= n
    case Reseed(_, sd) => sd.epoch <= n && SeedAnchored(buckets, sd)
  }

  ghost predicate BucketAnchored(n: nat, b: Bucket) {
    && (forall t :: t in b.casNames && b.casNames[t].Readable? ==> b.casNames[t].epoch <= n)
    && (b.current.Some? ==>
          && b.current.value.cas in b.casNames && b.casNames[b.current.value.cas] == b.current.value.body)
  }

  ghost predicate Anchored(s: State) {
    && (forall b :: b in s.buckets ==> BucketAnchored(|s.log|, s.buckets[b]))
    && (forall n :: n in s.slots ==> s.slots[n].epoch <= |s.log|)
    && (forall id :: id in s.tasks ==> TaskAnchored(|s.log|, s.buckets, s.slots, s.tasks[id]))
  }

  // ----- What each kind of change keeps -------------------------------------------------------

  lemma AnchorSetTask(s: State, id: nat, t: Task)
    requires Anchored(s) && TaskAnchored(|s.log|, s.buckets, s.slots, t)
    ensures Anchored(SetTask(s, id, t))
  {
  }

  lemma AnchorDropTask(s: State, id: nat)
    requires Anchored(s)
    ensures Anchored(DropTask(s, id))
  {
  }

  /** A slot whose epoch does not go down. */
  lemma AnchorSetSlot(s: State, node: nat, slot: Slot)
    requires Anchored(s) && node in s.slots && s.slots[node].epoch <= slot.epoch <= |s.log|
    ensures Anchored(SetSlot(s, node, slot))
  {
    var slots' := s.slots[node := slot];
    forall id | id in s.tasks
      ensures TaskAnchored(|s.log|, s.buckets, slots', s.tasks[id])
    {
      assert TaskAnchored(|s.log|, s.buckets, s.slots, s.tasks[id]);
    }
  }

  lemma TaskOutlivesWrite(n: nat, buckets: map<nat, Bucket>, slots: map<nat, Slot>, t: Task, at: nat, body: Body,
                          cas: nat, listed: nat, n': nat)
    requires at in buckets && MayName(buckets[at], body, cas, listed) && n <= n'
    requires TaskAnchored(n, buckets, slots, t)
    ensures TaskAnchored(n', buckets[at := Put(buckets[at], body, cas, listed)], slots, t)
  {
  }

  lemma AnchorWrite(s: State, at: nat, body: Body, cas: nat, listed: nat, log': seq<Entry>)
    requires Anchored(s) && at in s.buckets && MayName(s.buckets[at], body, cas, listed)
    requires |s.log| <= |log'| && (body.Readable? ==> body.epoch <= |log'|)
    ensures Anchored(s.(buckets := s.buckets[at := Put(s.buckets[at], body, cas, listed)], log := log'))
  {
    var buckets' := s.buckets[at := Put(s.buckets[at], body, cas, listed)];
    forall b | b in buckets' ensures BucketAnchored(|log'|, buckets'[b]) {
      assert BucketAnchored(|s.log|, s.buckets[b]);
    }
    forall id | id in s.tasks ensures TaskAnchored(|log'|, buckets', s.slots, s.tasks[id]) {
      TaskOutlivesWrite(|s.log|, s.buckets, s.slots, s.tasks[id], at, body, cas, listed, |log'|);
    }
  }

  // ----- Where writes land ------------------------------------------------------------------------

  /** A landing conditional write of a publish, on whatever bucket: it replaces exactly the
      body it read, at a higher epoch than that body's and than its node had seen; a
      single-name edit never replaces an unreadable body, and is applied to the bucket's
      set unless that is older than the node's own, in which case to the node's. */
  lemma CasLandsOnItsView(s: State, step: Step)
    requires Anchored(s) && CanCas(s, step)
    ensures var t := s.tasks[step.id]; var p := t.phase; var b := s.buckets[t.bucket];
      && p.view.epoch == EpochOn(b) && p.view.names == SetOn(b)
      && p.epoch == Max(EpochOn(b), p.live) + 1 <= |s.log| + 1
      && (!t.edit.Sweep? ==>
            && (b.current.Some? ==> b.current.value.body.Readable?)
            && p.next == With(p.have, t.edit.name, p.verdict)
            && (p.behind <==> EpochOn(b) < p.seen)
            && BasisAnchored(p.view, p.behind, p.seen, p.have, p.from, p.live))
  {
    assert TaskAnchored(|s.log|, s.buckets, s.slots, s.tasks[step.id]);
    assert BucketAnchored(|s.log|, s.buckets[s.tasks[step.id].bucket]);
  }

  lemma SeedLandsOnOlder(s: State, step: Step)
    requires Anchored(s) && CanSeedWrite(s, step)
    ensures var sd := SeedingOf(s.tasks[step.id]);
      && sd.epoch <= |s.log| && EpochOn(s.buckets[sd.queue[0]]) < sd.epoch
  {
    assert TaskAnchored(|s.log|, s.buckets, s.slots, s.tasks[step.id]);
    assert BucketAnchored(|s.log|, s.buckets[SeedingOf(s.tasks[step.id]).queue[0]]);
  }

  // ----- Single steps --------------------------------------------------------------------------------

  lemma CasKeepsAnchors(s: State, step: Step)
    requires Anchored(s) && CanCas(s, step)
    ensures Anchored(ApplyCas(s, step))
  {
    CasLandsOnItsView(s, step);
    var t := s.tasks[step.id];
    var p := t.phase;
    var log' := s.log + [Entry(p.next, p.epoch, t.edit, p.verdict, p.looked)];
    AnchorWrite(s, t.bucket, Readable(p.next, p.epoch), step.cas, step.listed, log');
    var written := s.(
      buckets := s.buckets[t.bucket := Put(s.buckets[t.bucket], Readable(p.next, p.epoch), step.cas, step.listed)],
      log := log');
    assert TaskAnchored(|log'|, written.buckets, written.slots, t);
    match step.report
    case Wrote =>
      AnchorSetTask(written, step.id, t.(phase := Through(Seeding(p.next, p.epoch, step.peers, Idle), p.verdict)));
    case Conflict => RetryKeepsAnchors(written, step.id);
    case Failed => RetryKeepsAnchors(written, step.id);
  }

  lemma RetryKeepsAnchors(s: State, id: nat)
    requires Anchored(s) && id in s.tasks && s.tasks[id].Publish?
    ensures Anchored(Retry(s, id)) && Anchored(SetPhase(s, id, Returned(false, 0, false)))
  {
    var t := s.tasks[id];
    assert TaskAnchored(|s.log|, s.buckets, s.slots, t);
    AnchorSetTask(s, id, t.(phase := Returned(false, 0, false)));
    if t.attempts > 1 {
      AnchorSetTask(s, id, t.(attempts := t.attempts - 1, phase := Ready));
    }
  }

  lemma SeedWriteKeepsAnchors(s: State, step: Step)
    requires Anchored(s) && CanSeedWrite(s, step)
    ensures Anchored(ApplySeedWrite(s, step))
  {
    SeedLandsOnOlder(s, step);
    var t := s.tasks[step.id];
    var sd := SeedingOf(t);
    AnchorWrite(s, sd.queue[0], Readable(sd.names, sd.epoch), step.cas, step.listed, s.log);
    var put := Put(s.buckets[sd.queue[0]], Readable(sd.names, sd.epoch), step.cas, step.listed);
    var written := s.(buckets := s.buckets[sd.queue[0] := put]);
    assert written == s.(buckets := written.buckets, log := s.log);
    assert TaskAnchored(|s.log|, written.buckets, s.slots, t);
    AnchorSetTask(written, step.id, WithSeeding(t, sd.(queue := sd.queue[1..], held := Idle)));
  }

  lemma SeedTaskAnchored(n: nat, buckets: map<nat, Bucket>, slots: map<nat, Slot>, t: Task)
    requires TaskAnchored(n, buckets, slots, t) && IsSeeding(t) && SeedingOf(t).queue != []
    ensures TaskAnchored(n, buckets, slots,
                         WithSeeding(t, SeedingOf(t).(queue := SeedingOf(t).queue[1..], held := Idle)))
    ensures SeedingOf(t).queue[0] in buckets && BucketAnchored(n, buckets[SeedingOf(t).queue[0]]) ==>
              TaskAnchored(n, buckets, slots, WithSeeding(t, SeedLook(SeedingOf(t), buckets[SeedingOf(t).queue[0]])))
  {
  }

  lemma SeedKeepsAnchors(s: State, step: Step)
    requires Anchored(s) && CanSeed(s, step)
    ensures Anchored(ApplySeed(s, step))
  {
    var t := s.tasks[step.id];
    assert TaskAnchored(|s.log|, s.buckets, s.slots, t);
    SeedTaskAnchored(|s.log|, s.buckets, s.slots, t);
    AnchorSetTask(s, step.id, ApplySeed(s, step).tasks[step.id]);
  }

  lemma FetchAnchored(n: nat, b: Bucket, edit: Edit)
    requires BucketAnchored(n, b) && ReadView(b, edit).Some?
    ensures ViewAnchored(b, edit, ReadView(b, edit).value) && ReadView(b, edit).value.epoch <= n
  {
  }

  lemma NextPhaseAnchored(s: State, step: Step)
    requires Anchored(s) && CanAttempt(s, step) && |s.log| < U64_MAX
    ensures var t := s.tasks[step.id];
            PhaseAnchored(|s.log|, s.buckets[t.bucket], s.buckets, s.slots[t.node].epoch, t.edit, NextPhase(s, step))
  {
    var t := s.tasks[step.id];
    assert TaskAnchored(|s.log|, s.buckets, s.slots, t);
    if step.Fetch? && ReadView(s.buckets[t.bucket], t.edit).Some? {
      FetchAnchored(|s.log|, s.buckets[t.bucket], t.edit);
    }
  }

  lemma AttemptKeepsAnchors(s: State, step: Step)
    requires Anchored(s) && CanAttempt(s, step) && |s.log| < U64_MAX
    ensures Anchored(ApplyAttempt(s, step))
  {
    NextPhaseAnchored(s, step);
    AnchorSetTask(s, step.id, s.tasks[step.id].(phase := NextPhase(s, step)));
  }

  lemma ReturnKeepsAnchors(s: State, step: Step)
    requires Anchored(s) && CanReturn(s, step)
    ensures Anchored(ApplyReturn(s, step))
  {
    var t := s.tasks[step.id];
    var p := t.phase;
    assert TaskAnchored(|s.log|, s.buckets, s.slots, t);
    var slot := if step.Confirm? then Adopt(s.slots[t.node], p.next, p.view.epoch, None)
                else Adopt(s.slots[t.node], p.seeding.names, p.seeding.epoch, Some(None));
    AnchorSetSlot(s, t.node, slot);
    var epoch := if step.Confirm? then p.view.epoch else p.seeding.epoch;
    AnchorSetTask(SetSlot(s, t.node, slot), step.id, t.(phase := Returned(true, epoch, p.verdict)));
  }

  lemma AdoptKeepsAnchors(s: State, step: Step)
    requires Anchored(s) && CanAdopt(s, step)
    ensures Anchored(ApplyAdopt(s, step))
  {
    var t := s.tasks[step.id];
    assert TaskAnchored(|s.log|, s.buckets, s.slots, t);
    var slot := Adopt(s.slots[t.node], t.progress.names, t.progress.epoch, Some(Some(t.listed)));
    AnchorSetSlot(s, t.node, slot);
    AnchorDropTask(SetSlot(s, t.node, slot), step.id);
  }

  /** A write on its way does not depend on its node's slot any more. */
  lemma AdriftAnchored(n: nat, buckets: map<nat, Bucket>, slots: map<nat, Slot>, slots': map<nat, Slot>, t: Task)
    requires TaskAnchored(n, buckets, slots, t) && Sent(t) && slots.Keys <= slots'.Keys
    ensures TaskAnchored(n, buckets, slots', Adrift(t))
  {
  }

  lemma NodeKeepsAnchors(s: State, step: Step)
    requires Anchored(s) && CanNode(s, step)
    ensures Anchored(ApplyNode(s, step))
  {
    if step.ArmLocal? {
      AnchorSetSlot(s, step.node, Arm(s.slots[step.node], step.name, step.blocked));
    } else if step.Restart? {
      var s' := ApplyNode(s, step);
      forall id | id in s'.tasks
        ensures TaskAnchored(|s.log|, s.buckets, s'.slots, s'.tasks[id])
      {
        assert TaskAnchored(|s.log|, s.buckets, s.slots, s.tasks[id]);
        if s.tasks[id].node == step.node {
          AdriftAnchored(|s.log|, s.buckets, s.slots, s'.slots, s.tasks[id]);
        }
      }
    }
  }

  lemma BeginKeepsAnchors(s: State, step: Step)
    requires Anchored(s) && CanBegin(s, step)
    ensures Anchored(ApplyBegin(s, step))
  {
    if step.EndWalk? {
      assert TaskAnchored(|s.log|, s.buckets, s.slots, s.tasks[step.id]);
    }
    AnchorSetTask(s, step.id, ApplyBegin(s, step).tasks[step.id]);
  }

  lemma EndKeepsAnchors(s: State, step: Step)
    requires Anchored(s) && CanEnd(s, step)
    ensures Anchored(ApplyEnd(s, step))
  {
    if step.Abandon? {
      assert TaskAnchored(|s.log|, s.buckets, s.slots, s.tasks[step.id]);
      AdriftAnchored(|s.log|, s.buckets, s.slots, s.slots, s.tasks[step.id]);
      AnchorSetTask(s, step.id, Adrift(s.tasks[step.id]));
    } else {
      AnchorDropTask(s, step.id);
      if s.tasks[step.id].Publish? {
        RetryKeepsAnchors(s, step.id);
      }
    }
  }

  lemma PollKeepsAnchors(s: State, step: Step)
    requires Anchored(s) && CanPoll(s, step)
    ensures Anchored(ApplyPoll(s, step))
  {
    if step.BeginPoll? {
      if s.buckets[step.bucket].current.Some? {
        AnchorSetTask(s, step.id, ApplyPoll(s, step).tasks[step.id]);
      }
    } else {
      var t := s.tasks[step.id];
      assert TaskAnchored(|s.log|, s.buckets, s.slots, t);
      assert BucketAnchored(|s.log|, s.buckets[t.bucket]);
      AnchorDropTask(s, step.id);
      if step.id in ApplyPoll(s, step).tasks {
        AnchorSetTask(s, step.id, ApplyPoll(s, step).tasks[step.id]);
      }
    }
  }

  lemma StepKeepsAnchors(s: State, step: Step)
    requires Anchored(s) && Enabled(s, step) && |s.log| < U64_MAX
    ensures Anchored(Apply(s, step))
  {
    match KindOf(step)
    case NodeKind => NodeKeepsAnchors(s, step);
    case BeginKind => BeginKeepsAnchors(s, step);
    case AttemptKind => AttemptKeepsAnchors(s, step);
    case ReturnKind => ReturnKeepsAnchors(s, step);
    case CasKind => CasKeepsAnchors(s, step);
    case EndKind => EndKeepsAnchors(s, step);
    case PollKind => PollKeepsAnchors(s, step);
    case AdoptKind => AdoptKeepsAnchors(s, step);
    case SeedKind => SeedKeepsAnchors(s, step);
    case SeedWriteKind => SeedWriteKeepsAnchors(s, step);
  }

  // ----- Runs ----------------------------------------------------------------------------------------

  /** Any run from an unpublished fleet, with epochs below the 64-bit ceiling. */
  ghost predicate AnyRun(states: seq<State>, steps: seq<Step>) {
    IsRun(states, steps) && Initial(states[0]) && |states[|steps|].log| < U64_MAX
  }

  lemma {:induction false} RunAnchored(states: seq<State>, steps: seq<Step>, i: nat)
    requires AnyRun(states, steps) && i <= |steps|
    ensures Anchored(states[i])
    decreases i
  {
    if i > 0 {
      RunAnchored(states, steps, i - 1);
      LogsGrow(states, steps, i - 1, |steps|);
      AnchoredAfter(states, steps, i);
    }
  }

  lemma AnchoredAfter(states: seq<State>, steps: seq<Step>, i: nat)
    requires IsRun(states, steps) && 0 < i <= |steps| && Anchored(states[i - 1]) && |states[i - 1].log| < U64_MAX
    ensures Anchored(states[i])
  {
    assert Joined(states, steps, i - 1);
    StepKeepsAnchors(states[i - 1], steps[i - 1]);
  }

  lemma CasWrites(s: State, step: Step)
    requires CanCas(s, step)
    ensures var t := s.tasks[step.id];
            var put := Put(s.buckets[t.bucket], Readable(t.phase.next, t.phase.epoch), step.cas, step.listed);
            ApplyCas(s, step).buckets == s.buckets[t.bucket := put]
  {
  }

  /** Bucket `b` stays as it is, or is written at a higher epoch. */
  predicate MovesUp(buckets: map<nat, Bucket>, buckets': map<nat, Bucket>, b: nat)
    requires b in buckets
  {
    b in buckets' && (buckets[b].current == buckets'[b].current || EpochOn(buckets[b]) < EpochOn(buckets'[b]))
  }

  lemma CasMovesUp(s: State, step: Step, b: nat)
    requires Anchored(s) && CanCas(s, step) && b in s.buckets
    ensures MovesUp(s.buckets, ApplyCas(s, step).buckets, b)
  {
    CasLandsOnItsView(s, step);
    CasWrites(s, step);
  }

  lemma SeedMovesUp(s: State, step: Step, b: nat)
    requires Anchored(s) && CanSeedWrite(s, step) && b in s.buckets
    ensures MovesUp(s.buckets, ApplySeedWrite(s, step).buckets, b)
  {
    SeedLandsOnOlder(s, step);
  }

  lemma BucketNeverGoesBack(s: State, step: Step, b: nat)
    requires Anchored(s) && Enabled(s, step) && b in s.buckets
    ensures MovesUp(s.buckets, Apply(s, step).buckets, b)
  {
    if step.CasLands? {
      CasMovesUp(s, step, b);
    } else if step.SeedWrite? {
      SeedMovesUp(s, step, b);
    } else {
      StepEvolves(s, step);
    }
  }

  /** Whatever buckets publishes, write-throughs and re-seeds go to, every write to a
      bucket strictly raises its epoch, so no copy ever moves back. */
  lemma BucketsNeverGoBack(states: seq<State>, steps: seq<Step>, i: nat, b: nat)
    requires AnyRun(states, steps) && i < |steps| && b in states[i].buckets
    ensures MovesUp(states[i].buckets, states[i + 1].buckets, b)
  {
    RunAnchored(states, steps, i);
    assert Joined(states, steps, i);
    BucketNeverGoesBack(states[i], steps[i], b);
  }

  /** Whatever bucket a single-name edit lands on: the bucket then stores the edited set, at
      an epoch above its old one and above the one its node was at when the edit was
      stamped; and no body that could not be read is overwritten. */
  lemma EditLandsAbove(states: seq<State>, steps: seq<Step>, i: nat)
    requires AnyRun(states, steps) && i < |steps| && CanCas(states[i], steps[i])
    requires !states[i].tasks[steps[i].id].edit.Sweep?
    ensures var t := states[i].tasks[steps[i].id]; var p := t.phase;
      var before, after := states[i].buckets[t.bucket], states[i + 1].buckets;
      && t.bucket in after
      && SetOn(after[t.bucket]) == With(p.have, t.edit.name, p.verdict)
      && EpochOn(after[t.bucket]) == p.epoch == Max(EpochOn(before), p.live) + 1
      && BasisAnchored(p.view, p.behind, p.seen, p.have, p.from, p.live)
      && p.view.names == SetOn(before) && p.view.epoch == EpochOn(before) && (p.behind <==> EpochOn(before) < p.seen)
      && (before.current.Some? ==> before.current.value.body.Readable?)
  {
    RunAnchored(states, steps, i);
    assert Joined(states, steps, i);
    CasLandsOnItsView(states[i], steps[i]);
    CasWrites(states[i], steps[i]);
  }

  /** The set and epoch a landed single-name edit was built on: the bucket's, or its node's
      at the earlier rebase if the bucket was judged behind the node. */
  function BuiltOn(s: State, t: Task, known: Slot): (set<string>, nat)
    requires t.Publish? && t.phase.Stamped? && t.bucket in s.buckets
  {
    if t.phase.behind then (known.names, known.epoch) else (SetOn(s.buckets[t.bucket]), EpochOn(s.buckets[t.bucket]))
  }

  /** Where a landed single-name edit took its set and where it was stamped: the bucket ends
      with the edit of that set, above the bucket's old epoch and the node's at the stamp;
      and if the set was the node's, the node has not gone back since. */
  lemma EditTrace(states: seq<State>, steps: seq<Step>, i: nat) returns (rebase: nat, stamp: nat)
    requires AnyRun(states, steps) && i < |steps| && CanCas(states[i], steps[i])
    requires !states[i].tasks[steps[i].id].edit.Sweep?
    ensures rebase < stamp < i && steps[rebase] == Rebase(steps[i].id) && steps[stamp] == Stamp(steps[i].id)
    ensures var t := states[i].tasks[steps[i].id];
      && t.node in states[rebase].slots && t.node in states[stamp].slots && t.bucket in states[i + 1].buckets
      && var base := BuiltOn(states[i], t, states[rebase].slots[t.node]);
         var live, after := states[stamp].slots[t.node].epoch, states[i + 1].buckets[t.bucket];
         && SetOn(after) == With(base.0, t.edit.name, t.phase.verdict)
         && EpochOn(after) == Max(EpochOn(states[i].buckets[t.bucket]), live) + 1
         && (t.phase.behind ==> EpochOn(states[i].buckets[t.bucket]) < base.1 <= live)
  {
    var id := steps[i].id;
    EditLandsAbove(states, steps, i);
    stamp := StampedAt(states, steps, id, i);
    var decide := DecidedAt(states, steps, id, stamp);
    rebase := BasedAt(states, steps, id, decide);
  }

  /** The set an edit falls back on is the node's live set, read while the node was at
      least at the epoch the bucket was found to be behind. */
  lemma FallbackIsTheLiveSet(states: seq<State>, steps: seq<Step>, i: nat)
    requires AnyRun(states, steps) && i < |steps| && steps[i].Rebase? && CanAttempt(states[i], steps[i])
    ensures var t := states[i].tasks[steps[i].id]; var slot := states[i].slots[t.node];
      && steps[i].id in states[i + 1].tasks && states[i + 1].tasks[steps[i].id].Publish?
      && var p := states[i + 1].tasks[steps[i].id].phase;
         && p.Based? && p.seen <= slot.epoch
         && (p.behind ==> p.view.epoch < p.seen && p.have == slot.names)
  {
    RunAnchored(states, steps, i);
    assert Joined(states, steps, i);
    assert TaskAnchored(|states[i].log|, states[i].buckets, states[i].slots, states[i].tasks[steps[i].id]);
  }

  /** A sweep that read no usable body, in any run, goes on to write its own set exactly
      when it derived a non-empty one: an empty one equals the stand-in it compares with,
      is taken for a confirmation, and leaves an unreadable body in place. */
  lemma SweepReplacesUnreadableIff(states: seq<State>, steps: seq<Step>, i: nat, id: nat)
    requires AnyRun(states, steps) && i < |steps| && steps[i] == Decide(id) && CanAttempt(states[i], steps[i])
    requires states[i].tasks[id].edit.Sweep? && !states[i].tasks[id].phase.view.isReal
    ensures CanAttempt(states[i + 1], Stamp(id)) <==> states[i].tasks[id].edit.derived != {}
    ensures CanReturn(states[i + 1], Confirm(id)) <==> states[i].tasks[id].edit.derived == {}
  {
    RunAnchored(states, steps, i);
    assert Joined(states, steps, i);
    assert TaskAnchored(|states[i].log|, states[i].buckets, states[i].slots, states[i].tasks[id]);
    SweepOverNothing(states[i], id);
  }
}
