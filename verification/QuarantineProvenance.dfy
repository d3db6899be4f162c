/** Where every copy of the quarantined set comes from, with no assumption on which buckets
    publishes go to: a landed publish that spent the copy's epoch on that very set. Copies
    at one epoch differ exactly when publishes spent that epoch on different sets, and only
    then, or when its node learns of a newer set on the way, does an edit miss what its
    node knew. */
module QuarantineProvenance {
  import opened Prelude
  import opened QuarantineSlot
  import opened QuarantineProtocol
  import opened QuarantineInvariant
  import opened QuarantineTheorems
  import opened QuarantineFailover

  // ----- Pairs that were published -----------------------------------------------------------------

  /** A landed publish spent `epoch` on `names`; nothing was spent on epoch zero but the
      empty set. */
  ghost predicate FromLog(log: seq<Entry>, names: set<string>, epoch: nat) {
    if epoch == 0 then names == {} else exists k :: 0 <= k < |log| && log[k].names == names && log[k].epoch == epoch
  }

  ghost predicate BodyFrom(log: seq<Entry>, body: Body) {
    body.Readable? ==> body.epoch > 0 && FromLog(log, body.names, body.epoch)
  }

  ghost predicate BucketFrom(log: seq<Entry>, b: Bucket) {
    b.current.Some? ==> BodyFrom(log, b.current.value.body)
  }

  ghost predicate SlotFrom(log: seq<Entry>, slot: Slot) {
    !slot.unpublished ==> FromLog(log, slot.names, slot.epoch)
  }

  ghost predicate SeedFrom(log: seq<Entry>, sd: Seeding) {
    sd.epoch > 0 && FromLog(log, sd.names, sd.epoch)
  }

  ghost predicate PhaseFrom(log: seq<Entry>, p: Phase) {
    match p
    case Ready => true
    case Through(sd, _) => SeedFrom(log, sd)
    case Returned(_, _, _) => true
    case _ => FromLog(log, p.view.names, p.view.epoch) && (p.Stamped? ==> p.epoch > 0)
  }

  ghost predicate TaskFrom(log: seq<Entry>, t: Task) {
    match t
    case Walk(_, _, _, _) => true
    case Publish(_, _, _, _, _, phase, _) => PhaseFrom(log, phase)
    case Poll(_, _, _, _, progress) =>
      progress.Got? ==> progress.epoch > 0 && FromLog(log, progress.names, progress.epoch)
    case Reseed(_, sd) => SeedFrom(log, sd)
  }

  ghost predicate Provenant(s: State) {
    && (forall b :: b in s.buckets ==> BucketFrom(s.log, s.buckets[b]))
    && (forall n :: n in s.slots ==> SlotFrom(s.log, s.slots[n]))
    && (forall id :: id in s.tasks ==> TaskFrom(s.log, s.tasks[id]))
  }

  // ----- What each kind of change keeps -------------------------------------------------------------

  lemma FromGrows(log: seq<Entry>, log': seq<Entry>, names: set<string>, epoch: nat)
    requires log <= log' && FromLog(log, names, epoch)
    ensures FromLog(log', names, epoch)
  {
    if epoch > 0 {
      var k :| 0 <= k < |log| && log[k].names == names && log[k].epoch == epoch;
      assert log'[k] == log[k];
    }
  }

  lemma TaskFromGrows(log: seq<Entry>, log': seq<Entry>, t: Task)
    requires log <= log' && TaskFrom(log, t)
    ensures TaskFrom(log', t)
  {
    match t
    case Walk(_, _, _, _) =>
    case Publish(_, _, _, _, _, p, _) =>
      if p.Through? {
        FromGrows(log, log', p.seeding.names, p.seeding.epoch);
      } else if !p.Ready? && !p.Returned? {
        FromGrows(log, log', p.view.names, p.view.epoch);
      }
    case Poll(_, _, _, _, progress) =>
      if progress.Got? {
        FromGrows(log, log', progress.names, progress.epoch);
      }
    case Reseed(_, sd) => FromGrows(log, log', sd.names, sd.epoch);
  }

  lemma ProvenantSetTask(s: State, id: nat, t: Task)
    requires Provenant(s) && TaskFrom(s.log, t)
    ensures Provenant(SetTask(s, id, t))
  {
  }

  lemma ProvenantDropTask(s: State, id: nat)
    requires Provenant(s)
    ensures Provenant(DropTask(s, id))
  {
  }

  lemma ProvenantSetSlot(s: State, node: nat, slot: Slot)
    requires Provenant(s) && SlotFrom(s.log, slot)
    ensures Provenant(SetSlot(s, node, slot))
  {
  }

  lemma ProvenantWrite(s: State, at: nat, body: Body, cas: nat, listed: nat, log': seq<Entry>)
    requires Provenant(s) && at in s.buckets && s.log <= log' && BodyFrom(log', body)
    ensures Provenant(s.(buckets := s.buckets[at := Put(s.buckets[at], body, cas, listed)], log := log'))
  {
    forall b | b in s.buckets ensures BucketFrom(log', s.buckets[b]) {
      assert BucketFrom(s.log, s.buckets[b]);
      if s.buckets[b].current.Some? && s.buckets[b].current.value.body.Readable? {
        FromGrows(s.log, log', s.buckets[b].current.value.body.names, s.buckets[b].current.value.body.epoch);
      }
    }
    forall n | n in s.slots ensures SlotFrom(log', s.slots[n]) {
      assert SlotFrom(s.log, s.slots[n]);
      if !s.slots[n].unpublished {
        FromGrows(s.log, log', s.slots[n].names, s.slots[n].epoch);
      }
    }
    forall id | id in s.tasks ensures TaskFrom(log', s.tasks[id]) {
      TaskFromGrows(s.log, log', s.tasks[id]);
    }
  }

  lemma AdriftFrom(log: seq<Entry>, t: Task)
    requires TaskFrom(log, t) && Sent(t)
    ensures TaskFrom(log, Adrift(t))
  {
  }

  lemma AdoptFrom(log: seq<Entry>, slot: Slot, names: set<string>, epoch: nat, etag: Option<Option<nat>>)
    requires SlotFrom(log, slot) && FromLog(log, names, epoch)
    ensures SlotFrom(log, Adopt(slot, names, epoch, etag))
  {
  }

  // ----- Single steps ---------------------------------------------------------------------------------

  lemma NodeKeepsProvenance(s: State, step: Step)
    requires Provenant(s) && CanNode(s, step)
    ensures Provenant(ApplyNode(s, step))
  {
    match step
    case SetStatus(_, _) =>
    case ArmLocal(node, name, blocked) =>
      assert SlotFrom(s.log, s.slots[node]);
      ProvenantSetSlot(s, node, Arm(s.slots[node], name, blocked));
    case Restart(node) =>
      var tasks' := Survivors(s.tasks, node);
      forall id | id in tasks' ensures TaskFrom(s.log, tasks'[id]) {
        assert TaskFrom(s.log, s.tasks[id]);
        if s.tasks[id].node == node {
          AdriftFrom(s.log, s.tasks[id]);
        }
      }
      ProvenantSetSlot(s.(tasks := tasks'), node, FRESH);
  }

  lemma BeginKeepsProvenance(s: State, step: Step)
    requires Provenant(s) && CanBegin(s, step)
    ensures Provenant(ApplyBegin(s, step))
  {
    if step.BeginReseed? {
      assert SlotFrom(s.log, s.slots[step.node]);
    }
    ProvenantSetTask(s, step.id, ApplyBegin(s, step).tasks[step.id]);
  }

  lemma NextPhaseFrom(s: State, step: Step)
    requires Provenant(s) && CanAttempt(s, step)
    ensures PhaseFrom(s.log, NextPhase(s, step))
  {
    var t := s.tasks[step.id];
    assert TaskFrom(s.log, t);
    if step.Fetch? {
      assert BucketFrom(s.log, s.buckets[t.bucket]);
    }
  }

  lemma AttemptKeepsProvenance(s: State, step: Step)
    requires Provenant(s) && CanAttempt(s, step)
    ensures Provenant(ApplyAttempt(s, step))
  {
    NextPhaseFrom(s, step);
    ProvenantSetTask(s, step.id, s.tasks[step.id].(phase := NextPhase(s, step)));
  }

  lemma ReturnKeepsProvenance(s: State, step: Step)
    requires Provenant(s) && Anchored(s) && CanReturn(s, step)
    ensures Provenant(ApplyReturn(s, step))
  {
    var t := s.tasks[step.id];
    var p := t.phase;
    assert TaskFrom(s.log, t) && TaskAnchored(|s.log|, s.buckets, s.slots, t);
    assert SlotFrom(s.log, s.slots[t.node]);
    var (names, epoch, etag) :=
      if step.Confirm? then (p.next, p.view.epoch, None) else (p.seeding.names, p.seeding.epoch, Some(None));
    var slot := Adopt(s.slots[t.node], names, epoch, etag);
    AdoptFrom(s.log, s.slots[t.node], names, epoch, etag);
    ProvenantSetSlot(s, t.node, slot);
    ProvenantSetTask(SetSlot(s, t.node, slot), step.id, t.(phase := Returned(true, epoch, p.verdict)));
  }

  lemma CasKeepsProvenance(s: State, step: Step)
    requires Provenant(s) && CanCas(s, step)
    ensures Provenant(ApplyCas(s, step))
  {
    var t := s.tasks[step.id];
    var p := t.phase;
    assert TaskFrom(s.log, t);
    var entry := Entry(p.next, p.epoch, t.edit, p.verdict, p.looked);
    var log' := s.log + [entry];
    assert log'[|s.log|] == entry;
    var body := Readable(p.next, p.epoch);
    ProvenantWrite(s, t.bucket, body, step.cas, step.listed, log');
    var written := s.(
      buckets := s.buckets[t.bucket := Put(s.buckets[t.bucket], body, step.cas, step.listed)], log := log');
    match step.report
    case Wrote =>
      ProvenantSetTask(written, step.id, t.(phase := Through(Seeding(p.next, p.epoch, step.peers, Idle), p.verdict)));
    case Conflict => RetryKeepsProvenance(written, step.id);
    case Failed => RetryKeepsProvenance(written, step.id);
  }

  lemma RetryKeepsProvenance(s: State, id: nat)
    requires Provenant(s) && id in s.tasks && s.tasks[id].Publish?
    ensures Provenant(Retry(s, id)) && Provenant(SetPhase(s, id, Returned(false, 0, false)))
  {
    var t := s.tasks[id];
    ProvenantSetTask(s, id, t.(phase := Returned(false, 0, false)));
    if t.attempts > 1 {
      ProvenantSetTask(s, id, t.(attempts := t.attempts - 1, phase := Ready));
    }
  }

  lemma EndKeepsProvenance(s: State, step: Step)
    requires Provenant(s) && CanEnd(s, step)
    ensures Provenant(ApplyEnd(s, step))
  {
    if step.Abandon? {
      assert TaskFrom(s.log, s.tasks[step.id]);
      AdriftFrom(s.log, s.tasks[step.id]);
      ProvenantSetTask(s, step.id, Adrift(s.tasks[step.id]));
    } else {
      ProvenantDropTask(s, step.id);
      if s.tasks[step.id].Publish? {
        RetryKeepsProvenance(s, step.id);
      }
    }
  }

  lemma PollKeepsProvenance(s: State, step: Step)
    requires Provenant(s) && CanPoll(s, step)
    ensures Provenant(ApplyPoll(s, step))
  {
    if step.BeginPoll? {
      if s.buckets[step.bucket].current.Some? {
        ProvenantSetTask(s, step.id, ApplyPoll(s, step).tasks[step.id]);
      }
    } else {
      var t := s.tasks[step.id];
      assert TaskFrom(s.log, t) && BucketFrom(s.log, s.buckets[t.bucket]);
      ProvenantDropTask(s, step.id);
      if step.id in ApplyPoll(s, step).tasks {
        ProvenantSetTask(s, step.id, ApplyPoll(s, step).tasks[step.id]);
      }
    }
  }

  lemma AdoptKeepsProvenance(s: State, step: Step)
    requires Provenant(s) && CanAdopt(s, step)
    ensures Provenant(ApplyAdopt(s, step))
  {
    var t := s.tasks[step.id];
    assert TaskFrom(s.log, t) && SlotFrom(s.log, s.slots[t.node]);
    var slot := Adopt(s.slots[t.node], t.progress.names, t.progress.epoch, Some(Some(t.listed)));
    AdoptFrom(s.log, s.slots[t.node], t.progress.names, t.progress.epoch, Some(Some(t.listed)));
    ProvenantSetSlot(s, t.node, slot);
    ProvenantDropTask(SetSlot(s, t.node, slot), step.id);
  }

  lemma SeedKeepsProvenance(s: State, step: Step)
    requires Provenant(s) && CanSeed(s, step)
    ensures Provenant(ApplySeed(s, step))
  {
    assert TaskFrom(s.log, s.tasks[step.id]);
    ProvenantSetTask(s, step.id, ApplySeed(s, step).tasks[step.id]);
  }

  lemma SeedWriteKeepsProvenance(s: State, step: Step)
    requires Provenant(s) && CanSeedWrite(s, step)
    ensures Provenant(ApplySeedWrite(s, step))
  {
    var t := s.tasks[step.id];
    var sd := SeedingOf(t);
    var b := sd.queue[0];
    assert TaskFrom(s.log, t);
    ProvenantWrite(s, b, Readable(sd.names, sd.epoch), step.cas, step.listed, s.log);
    var written := s.(buckets := s.buckets[b := Put(s.buckets[b], Readable(sd.names, sd.epoch), step.cas,
                                                    step.listed)]);
    assert written == s.(buckets := written.buckets, log := s.log);
    ProvenantSetTask(written, step.id, WithSeeding(t, sd.(queue := sd.queue[1..], held := Idle)));
  }

  lemma StepKeepsProvenance(s: State, step: Step)
    requires Provenant(s) && Anchored(s) && Enabled(s, step)
    ensures Provenant(Apply(s, step))
  {
    match KindOf(step)
    case NodeKind => NodeKeepsProvenance(s, step);
    case BeginKind => BeginKeepsProvenance(s, step);
    case AttemptKind => AttemptKeepsProvenance(s, step);
    case ReturnKind => ReturnKeepsProvenance(s, step);
    case CasKind => CasKeepsProvenance(s, step);
    case EndKind => EndKeepsProvenance(s, step);
    case PollKind => PollKeepsProvenance(s, step);
    case AdoptKind => AdoptKeepsProvenance(s, step);
    case SeedKind => SeedKeepsProvenance(s, step);
    case SeedWriteKind => SeedWriteKeepsProvenance(s, step);
  }

  lemma ProvenantAfter(states: seq<State>, steps: seq<Step>, i: nat)
    requires IsRun(states, steps) && 0 < i <= |steps| && Anchored(states[i - 1]) && Provenant(states[i - 1])
    ensures Provenant(states[i])
  {
    assert Joined(states, steps, i - 1);
    StepKeepsProvenance(states[i - 1], steps[i - 1]);
  }

  /** In every run, every copy of the set comes from a landed publish. */
  lemma {:induction false} RunProvenant(states: seq<State>, steps: seq<Step>, i: nat)
    requires AnyRun(states, steps) && i <= |steps|
    ensures Provenant(states[i])
    decreases i
  {
    if i > 0 {
      RunProvenant(states, steps, i - 1);
      RunAnchored(states, steps, i - 1);
      ProvenantAfter(states, steps, i);
    }
  }

  // ----- Forks ------------------------------------------------------------------------------------------

  /** The landed publishes spent `epoch` on one set. */
  ghost predicate OneSetAt(log: seq<Entry>, epoch: nat) {
    forall j, k :: 0 <= j < |log| && 0 <= k < |log| && log[j].epoch == log[k].epoch == epoch ==>
      log[j].names == log[k].names
  }

  lemma FromLogUnique(log: seq<Entry>, names: set<string>, names': set<string>, epoch: nat)
    requires FromLog(log, names, epoch) && FromLog(log, names', epoch) && OneSetAt(log, epoch)
    ensures names == names'
  {
  }

  /** A bucket, or a node without a pending arm, holds `names` at `epoch`. */
  ghost predicate HasCopy(s: State, names: set<string>, epoch: nat) {
    || (exists b :: b in s.buckets && SetOn(s.buckets[b]) == names && EpochOn(s.buckets[b]) == epoch)
    || (exists n :: n in s.slots && !s.slots[n].unpublished && s.slots[n].names == names && s.slots[n].epoch == epoch)
  }

  lemma BucketPairFrom(log: seq<Entry>, b: Bucket)
    requires BucketFrom(log, b)
    ensures FromLog(log, SetOn(b), EpochOn(b))
  {
  }

  lemma CopyFromLog(s: State, names: set<string>, epoch: nat)
    requires Provenant(s) && HasCopy(s, names, epoch)
    ensures FromLog(s.log, names, epoch)
  {
    if b :| b in s.buckets && SetOn(s.buckets[b]) == names && EpochOn(s.buckets[b]) == epoch {
      BucketPairFrom(s.log, s.buckets[b]);
    } else {
      var n :| n in s.slots && !s.slots[n].unpublished && s.slots[n].names == names && s.slots[n].epoch == epoch;
      assert SlotFrom(s.log, s.slots[n]);
    }
  }

  /** The step at which an entry of the log landed. */
  lemma {:induction false} LandingOf(states: seq<State>, steps: seq<Step>, j: nat, k: nat) returns (m: nat)
    requires IsRun(states, steps) && Initial(states[0]) && j <= |steps| && k < |states[j].log|
    ensures m < j && CanCas(states[m], steps[m]) && |states[m].log| == k && |states[m + 1].log| == k + 1
    decreases j
  {
    assert j > 0;
    EvolvesAt(states, steps, j - 1);
    if k < |states[j - 1].log| {
      m := LandingOf(states, steps, j - 1, k);
    } else {
      m := j - 1;
      assert Joined(states, steps, m);
    }
  }

  lemma LandingStores(states: seq<State>, steps: seq<Step>, m: nat)
    requires IsRun(states, steps) && m < |steps| && CanCas(states[m], steps[m])
    ensures |states[m + 1].log| == |states[m].log| + 1
    ensures var e := states[m + 1].log[|states[m].log|]; HasCopy(states[m + 1], e.names, e.epoch)
  {
    assert Joined(states, steps, m);
    CasWrites(states[m], steps[m]);
    var t := states[m].tasks[steps[m].id];
    assert SetOn(states[m + 1].buckets[t.bucket]) == t.phase.next
           && EpochOn(states[m + 1].buckets[t.bucket]) == t.phase.epoch;
  }

  /** At some time of the run there is a copy of `names` at `epoch`. */
  ghost predicate Seen(states: seq<State>, names: set<string>, epoch: nat) {
    exists i :: 0 <= i < |states| && HasCopy(states[i], names, epoch)
  }

  /** What is ever seen at an epoch is exactly what publishes spent that epoch on. */
  lemma SeenIffPublished(states: seq<State>, steps: seq<Step>, names: set<string>, epoch: nat)
    requires AnyRun(states, steps) && epoch > 0
    ensures Seen(states, names, epoch) <==> FromLog(states[|steps|].log, names, epoch)
  {
    var log := states[|steps|].log;
    if i :| 0 <= i < |states| && HasCopy(states[i], names, epoch) {
      RunProvenant(states, steps, i);
      CopyFromLog(states[i], names, epoch);
      LogsGrow(states, steps, i, |steps|);
      FromGrows(states[i].log, log, names, epoch);
    }
    if k :| 0 <= k < |log| && log[k].names == names && log[k].epoch == epoch {
      var m := LandingOf(states, steps, |steps|, k);
      LandingStores(states, steps, m);
      LogsGrow(states, steps, m + 1, |steps|);
      assert states[m + 1].log[k] == log[k];
    }
  }

  /** Over a whole run, an epoch shows two different sets, on buckets or on nodes without a
      pending arm, exactly when landed publishes spent it on different sets. */
  lemma ForkIff(states: seq<State>, steps: seq<Step>, epoch: nat)
    requires AnyRun(states, steps) && epoch > 0
    ensures (exists names, names' :: Seen(states, names, epoch) && Seen(states, names', epoch) && names != names')
       <==> !OneSetAt(states[|steps|].log, epoch)
  {
    var log := states[|steps|].log;
    if names, names' :| Seen(states, names, epoch) && Seen(states, names', epoch) && names != names' {
      SeenIffPublished(states, steps, names, epoch);
      SeenIffPublished(states, steps, names', epoch);
      if OneSetAt(log, epoch) {
        FromLogUnique(log, names, names', epoch);
      }
    }
    if !OneSetAt(log, epoch) {
      var j, k :| 0 <= j < |log| && 0 <= k < |log| && log[j].epoch == log[k].epoch == epoch
        && log[j].names != log[k].names;
      SeenIffPublished(states, steps, log[j].names, epoch);
      SeenIffPublished(states, steps, log[k].names, epoch);
    }
  }

  // ----- What an edit is built on ---------------------------------------------------------------------------

  /** The pair a landed single-name edit was built on comes from the log, if it is the
      bucket's, or the node's with no arm pending. */
  lemma BaseFromLog(states: seq<State>, steps: seq<Step>, i: nat, rebase: nat)
    requires AnyRun(states, steps) && rebase < i < |steps| && CanCas(states[i], steps[i])
    requires states[i].tasks[steps[i].id].node in states[rebase].slots
    requires var t := states[i].tasks[steps[i].id]; t.phase.behind ==> !states[rebase].slots[t.node].unpublished
    ensures var t := states[i].tasks[steps[i].id]; var base := BuiltOn(states[i], t, states[rebase].slots[t.node]);
            FromLog(states[i].log, base.0, base.1)
  {
    var t := states[i].tasks[steps[i].id];
    if t.phase.behind {
      SlotPairFrom(states, steps, rebase, i, t.node);
    } else {
      RunProvenant(states, steps, i);
      BucketPairFrom(states[i].log, states[i].buckets[t.bucket]);
    }
  }

  lemma SlotPairFrom(states: seq<State>, steps: seq<Step>, j: nat, i: nat, node: nat)
    requires AnyRun(states, steps) && j <= i <= |steps| && node in states[j].slots && !states[j].slots[node].unpublished
    ensures FromLog(states[i].log, states[j].slots[node].names, states[j].slots[node].epoch)
  {
    RunProvenant(states, steps, j);
    assert SlotFrom(states[j].log, states[j].slots[node]);
    LogsGrow(states, steps, j, i);
    FromGrows(states[j].log, states[i].log, states[j].slots[node].names, states[j].slots[node].epoch);
  }

  /** The pair `base` is the one `slot` holds, or newer. */
  predicate NoOlderThan(base: (set<string>, nat), slot: Slot) {
    base == (slot.names, slot.epoch) || slot.epoch < base.1
  }

  /** Whether a landed single-name edit was built on the very pair its node held when it was
      stamped, or on a newer one. With no arm pending it was, exactly when the node had not
      gone past the edit's base by then, provided no two publishes spent the base's epoch on
      different sets. So the edit misses something its node knew in two cases only: the node
      adopted a newer set between the edit's reads of it, or the base's epoch is forked. */
  lemma BuiltOnNewestIff(states: seq<State>, steps: seq<Step>, i: nat) returns (rebase: nat, stamp: nat)
    requires AnyRun(states, steps) && i < |steps| && CanCas(states[i], steps[i])
    requires !states[i].tasks[steps[i].id].edit.Sweep?
    ensures rebase < stamp < i && steps[rebase] == Rebase(steps[i].id) && steps[stamp] == Stamp(steps[i].id)
    ensures var t := states[i].tasks[steps[i].id];
      && t.node in states[rebase].slots && t.node in states[stamp].slots && t.bucket in states[i + 1].buckets
      && var known, live := states[rebase].slots[t.node], states[stamp].slots[t.node];
         var base := BuiltOn(states[i], t, known);
         && SetOn(states[i + 1].buckets[t.bucket]) == With(base.0, t.edit.name, t.phase.verdict)
         && live.epoch < EpochOn(states[i + 1].buckets[t.bucket])
         && (!live.unpublished && (t.phase.behind ==> !known.unpublished) && OneSetAt(states[i].log, base.1) ==>
               (NoOlderThan(base, live) <==> live.epoch <= base.1))
  {
    rebase, stamp := EditTrace(states, steps, i);
    var t := states[i].tasks[steps[i].id];
    var known, live := states[rebase].slots[t.node], states[stamp].slots[t.node];
    var base := BuiltOn(states[i], t, known);
    if !live.unpublished && (t.phase.behind ==> !known.unpublished) && OneSetAt(states[i].log, base.1)
      && live.epoch == base.1 {
      BaseFromLog(states, steps, i, rebase);
      SlotPairFrom(states, steps, stamp, i, t.node);
      FromLogUnique(states[i].log, base.0, live.names, base.1);
    }
  }
}
