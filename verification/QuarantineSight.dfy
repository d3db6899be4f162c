/** Polling never goes blind: recording a listing etag never hides a body this node has
    not caught up with, even when publishes land between a poll's LIST, GET and adoption. */
module QuarantineSight {
  import opened Prelude
  import opened QuarantineSlot
  import opened QuarantineProtocol
  import opened QuarantineInvariant
  import opened QuarantineTheorems
  import opened QuarantineCalls

  /** The recorded listing etag names a body no newer than the live epoch. */
  predicate EtagOk(b: Bucket, slot: Slot) {
    slot.etag.Some? ==>
      && slot.etag.value in b.listNames
      && var body := b.listNames[slot.etag.value];
         body.Readable? ==> body.epoch <= slot.epoch
  }

  /** A poll's listed etag names the body stored when its LIST ran; what its GET returned
      is at least as new. */
  predicate PollOk(b: Bucket, sel: nat, t: Task) {
    t.Poll? ==>
      && t.bucket == sel && t.listed in b.listNames
      && (var body := b.listNames[t.listed];
          if t.floor == 0 then body.Unreadable? else body.Readable? && body.epoch == t.floor)
      && (t.progress.Got? ==> t.floor <= t.progress.epoch)
  }

  ghost predicate Sight(s: State, sel: nat) {
    && sel in s.buckets
    && (forall n :: n in s.slots ==> EtagOk(s.buckets[sel], s.slots[n]))
    && (forall id :: id in s.tasks ==> PollOk(s.buckets[sel], sel, s.tasks[id]))
  }

  // ----- What each kind of change keeps ----------------------------------------------

  lemma SightSetTask(s: State, sel: nat, id: nat, t: Task)
    requires Sight(s, sel) && PollOk(s.buckets[sel], sel, t)
    ensures Sight(SetTask(s, id, t), sel)
  {
  }

  lemma SightDropTask(s: State, sel: nat, id: nat)
    requires Sight(s, sel)
    ensures Sight(DropTask(s, id), sel)
  {
  }

  lemma SightSetSlot(s: State, sel: nat, node: nat, slot: Slot)
    requires Sight(s, sel) && EtagOk(s.buckets[sel], slot)
    ensures Sight(SetSlot(s, node, slot), sel)
  {
  }

  lemma SightWrite(s: State, sel: nat, at: nat, body: Body, cas: nat, listed: nat, log': seq<Entry>)
    requires Sight(s, sel) && at in s.buckets && MayName(s.buckets[at], body, cas, listed)
    ensures Sight(s.(buckets := s.buckets[at := Put(s.buckets[at], body, cas, listed)], log := log'), sel)
  {
  }

  /** Whatever is offered, the live epoch ends at the larger of the two. */
  lemma AdoptRaisesEpoch(slot: Slot, names: set<string>, epoch: nat, etag: Option<Option<nat>>)
    ensures Adopt(slot, names, epoch, etag).epoch == Max(slot.epoch, epoch)
    ensures Adopt(slot, names, epoch, etag).etag == if etag.Some? then etag.value else slot.etag
  {
  }

  // ----- Single steps ------------------------------------------------------------------

  lemma CasKeepsSight(s: State, sel: nat, step: Step)
    requires Sight(s, sel) && CanCas(s, step)
    ensures Sight(ApplyCas(s, step), sel)
  {
    var t := s.tasks[step.id];
    var p := t.phase;
    var log' := s.log + [Entry(p.next, p.epoch, t.edit, p.verdict, p.looked)];
    SightWrite(s, sel, t.bucket, Readable(p.next, p.epoch), step.cas, step.listed, log');
  }

  lemma SeedWriteKeepsSight(s: State, sel: nat, step: Step)
    requires Sight(s, sel) && CanSeedWrite(s, step)
    ensures Sight(ApplySeedWrite(s, step), sel)
  {
    var sd := SeedingOf(s.tasks[step.id]);
    SightWrite(s, sel, sd.queue[0], Readable(sd.names, sd.epoch), step.cas, step.listed, s.log);
  }

  /** A LIST of the selected bucket gives an etag naming the last publish. */
  lemma ListOk(s: State, sel: nat, node: nat)
    requires Inv(s, sel) && s.buckets[sel].current.Some?
    ensures PollOk(s.buckets[sel], sel, Poll(node, sel, s.buckets[sel].current.value.listed, |s.log|, Listed))
  {
    assert BucketOk(s.log, s.buckets[sel]);
  }

  lemma PollKeepsSight(s: State, sel: nat, step: Step)
    requires Inv(s, sel) && Sight(s, sel) && CanPoll(s, step) && PollsOn(step, sel)
    ensures Sight(ApplyPoll(s, step), sel)
  {
    if step.BeginPoll? {
      if s.buckets[sel].current.Some? {
        ListOk(s, sel, step.node);
        SightSetTask(s, sel, step.id, Poll(step.node, sel, s.buckets[sel].current.value.listed, |s.log|, Listed));
      }
    } else {
      var t := s.tasks[step.id];
      assert PollOk(s.buckets[sel], sel, t) && TaskOk(s.log, s.buckets, sel, t);
      SightDropTask(s, sel, step.id);
      if step.id in ApplyPoll(s, step).tasks {
        SightSetTask(s, sel, step.id, ApplyPoll(s, step).tasks[step.id]);
      }
    }
  }

  lemma AdoptKeepsSight(s: State, sel: nat, step: Step)
    requires Sight(s, sel) && CanAdopt(s, step)
    ensures Sight(ApplyAdopt(s, step), sel)
  {
    var t := s.tasks[step.id];
    assert PollOk(s.buckets[sel], sel, t);
    assert EtagOk(s.buckets[sel], s.slots[t.node]);
    var slot := Adopt(s.slots[t.node], t.progress.names, t.progress.epoch, Some(Some(t.listed)));
    SightSetSlot(s, sel, t.node, slot);
    SightDropTask(SetSlot(s, t.node, slot), sel, step.id);
  }

  lemma ReturnKeepsSight(s: State, sel: nat, step: Step)
    requires Sight(s, sel) && CanReturn(s, step)
    ensures Sight(ApplyReturn(s, step), sel)
  {
    var t := s.tasks[step.id];
    assert EtagOk(s.buckets[sel], s.slots[t.node]);
    var slot := if step.Confirm? then Adopt(s.slots[t.node], t.phase.next, t.phase.view.epoch, None)
                else Adopt(s.slots[t.node], t.phase.seeding.names, t.phase.seeding.epoch, Some(None));
    SightSetSlot(s, sel, t.node, slot);
    SightSetTask(SetSlot(s, t.node, slot), sel, step.id, ApplyReturn(s, step).tasks[step.id]);
  }

  lemma NodeKeepsSight(s: State, sel: nat, step: Step)
    requires Sight(s, sel) && CanNode(s, step)
    ensures Sight(ApplyNode(s, step), sel)
  {
    if step.ArmLocal? {
      assert EtagOk(s.buckets[sel], s.slots[step.node]);
      SightSetSlot(s, sel, step.node, Arm(s.slots[step.node], step.name, step.blocked));
    }
  }

  /** Steps of publishes and seeds that write no bucket and touch no slot. */
  lemma BeginKeepsSight(s: State, sel: nat, step: Step)
    requires Sight(s, sel) && CanBegin(s, step)
    ensures Sight(ApplyBegin(s, step), sel)
  {
    SightSetTask(s, sel, step.id, ApplyBegin(s, step).tasks[step.id]);
  }

  lemma AttemptKeepsSight(s: State, sel: nat, step: Step)
    requires Sight(s, sel) && CanAttempt(s, step)
    ensures Sight(ApplyAttempt(s, step), sel)
  {
    SightSetTask(s, sel, step.id, s.tasks[step.id].(phase := NextPhase(s, step)));
  }

  lemma SeedKeepsSight(s: State, sel: nat, step: Step)
    requires Sight(s, sel) && CanSeed(s, step)
    ensures Sight(ApplySeed(s, step), sel)
  {
    SightSetTask(s, sel, step.id, ApplySeed(s, step).tasks[step.id]);
  }

  lemma EndKeepsSight(s: State, sel: nat, step: Step)
    requires Sight(s, sel) && CanEnd(s, step)
    ensures Sight(ApplyEnd(s, step), sel)
  {
    if step.id in ApplyEnd(s, step).tasks {
      SightSetTask(s, sel, step.id, ApplyEnd(s, step).tasks[step.id]);
    } else {
      SightDropTask(s, sel, step.id);
    }
  }

  lemma StepKeepsSight(s: State, sel: nat, step: Step)
    requires Inv(s, sel) && Sight(s, sel) && Enabled(s, step) && PollsOn(step, sel)
    ensures Sight(Apply(s, step), sel)
  {
    match KindOf(step)
    case NodeKind => NodeKeepsSight(s, sel, step);
    case BeginKind => BeginKeepsSight(s, sel, step);
    case AttemptKind => AttemptKeepsSight(s, sel, step);
    case ReturnKind => ReturnKeepsSight(s, sel, step);
    case CasKind => CasKeepsSight(s, sel, step);
    case EndKind => EndKeepsSight(s, sel, step);
    case PollKind => PollKeepsSight(s, sel, step);
    case AdoptKind => AdoptKeepsSight(s, sel, step);
    case SeedKind => SeedKeepsSight(s, sel, step);
    case SeedWriteKind => SeedWriteKeepsSight(s, sel, step);
  }

  // ----- Runs ----------------------------------------------------------------------------

  /** A fleet run in which polls, too, read only the selected bucket. */
  ghost predicate OneBucketRun(states: seq<State>, steps: seq<Step>, sel: nat) {
    FleetRun(states, steps, sel) && forall i :: 0 <= i < |steps| ==> PollsOn(steps[i], sel)
  }

  lemma {:induction false} SightHolds(states: seq<State>, steps: seq<Step>, sel: nat, i: nat)
    requires OneBucketRun(states, steps, sel) && i <= |steps|
    ensures Sight(states[i], sel)
    decreases i
  {
    if i == 0 {
      InitialSight(states[i], sel);
    } else {
      SightHolds(states, steps, sel, i - 1);
      RunInv(states, steps, sel, i - 1);
      SightAfter(states, steps, sel, i);
    }
  }

  lemma SightAfter(states: seq<State>, steps: seq<Step>, sel: nat, i: nat)
    requires IsRun(states, steps) && 0 < i <= |steps| && PollsOn(steps[i - 1], sel)
    requires Inv(states[i - 1], sel) && Sight(states[i - 1], sel)
    ensures Sight(states[i], sel)
  {
    assert Joined(states, steps, i - 1);
    StepKeepsSight(states[i - 1], sel, steps[i - 1]);
  }

  lemma RunSight(states: seq<State>, steps: seq<Step>, sel: nat, i: nat)
    requires OneBucketRun(states, steps, sel) && i <= |steps|
    ensures Inv(states[i], sel) && Sight(states[i], sel)
  {
    RunInv(states, steps, sel, i);
    SightHolds(states, steps, sel, i);
  }

  lemma InitialSight(s: State, sel: nat)
    requires Initial(s) && sel in s.buckets
    ensures Sight(s, sel)
  {
  }

  /** A node whose recorded listing etag is the bucket's current one is never behind it:
      skipping the GET hides nothing. */
  lemma NeverBlinded(states: seq<State>, steps: seq<Step>, sel: nat, i: nat, node: nat)
    requires OneBucketRun(states, steps, sel) && i <= |steps| && node in states[i].slots
    ensures sel in states[i].buckets
    ensures states[i].buckets[sel].current.Some?
            && states[i].slots[node].etag == Some(states[i].buckets[sel].current.value.listed)
            ==> EpochOn(states[i].buckets[sel]) <= states[i].slots[node].epoch
  {
    RunSight(states, steps, sel, i);
    var s := states[i];
    assert BucketOk(s.log, s.buckets[sel]);
    assert EtagOk(s.buckets[sel], s.slots[node]);
  }

  /** However a poll goes, short of an abort or its node's restart, the node is at least at
      the floor then: the etag had not moved, the fetched body was offered, or nothing has
      been published yet. */
  lemma PollEndReachesFloor(s: State, sel: nat, step: Step, id: nat)
    requires Inv(s, sel) && Sight(s, sel) && Enabled(s, step) && id in s.tasks && s.tasks[id].Poll?
    requires id !in Apply(s, step).tasks && step != Abort(id) && step != Restart(s.tasks[id].node)
    ensures s.tasks[id].node in Apply(s, step).slots
    ensures s.tasks[id].floor <= Apply(s, step).slots[s.tasks[id].node].epoch
  {
    var t := s.tasks[id];
    StepEnds(s, step, id);
    assert PollOk(s.buckets[sel], sel, t) && TaskOk(s.log, s.buckets, sel, t);
    assert EtagOk(s.buckets[sel], s.slots[t.node]);
    if step == EndPoll(id) {
      AdoptRaisesEpoch(s.slots[t.node], t.progress.names, t.progress.epoch, Some(Some(t.listed)));
    }
  }

  lemma PollBegins(states: seq<State>, steps: seq<Step>, i: nat)
    requires IsRun(states, steps) && i < |steps| && steps[i].BeginPoll? && steps[i].id in states[i + 1].tasks
    ensures var t := states[i + 1].tasks[steps[i].id];
            t.Poll? && t.node == steps[i].node && t.floor == |states[i].log|
  {
    assert Joined(states, steps, i);
  }

  lemma PollEnds(states: seq<State>, steps: seq<Step>, sel: nat, id: nat, j: nat)
    requires OneBucketRun(states, steps, sel) && j < |steps| && id in states[j].tasks && states[j].tasks[id].Poll?
    requires id !in states[j + 1].tasks && steps[j] != Abort(id) && steps[j] != Restart(states[j].tasks[id].node)
    ensures var t := states[j].tasks[id];
            t.node in states[j + 1].slots && t.floor <= states[j + 1].slots[t.node].epoch
  {
    RunSight(states, steps, sel, j);
    assert Joined(states, steps, j);
    PollEndReachesFloor(states[j], sel, steps[j], id);
  }

  /** A poll that goes, other than by an abort or its node's restart, leaves its node at or
      above everything that was stored when its LIST ran, whatever lands in between. */
  lemma PollCatchesUp(states: seq<State>, steps: seq<Step>, sel: nat, id: nat, i: nat, j: nat)
    requires OneBucketRun(states, steps, sel) && i < j < |steps|
    requires steps[i].BeginPoll? && steps[i].id == id && sel in states[i].buckets
    requires forall m :: i < m <= j ==> id in states[m].tasks
    requires id !in states[j + 1].tasks && steps[j] != Abort(id) && steps[j] != Restart(steps[i].node)
    ensures steps[i].node in states[j + 1].slots
    ensures EpochOn(states[i].buckets[sel]) <= states[j + 1].slots[steps[i].node].epoch
  {
    PollBegins(states, steps, i);
    TaskPersists(states, steps, id, i + 1, j);
    PollEnds(states, steps, sel, id, j);
    RunInv(states, steps, sel, i);
    SelectedEpoch(states[i], sel);
  }

  /** A node's live epoch only rises, unless the node itself restarts. */
  lemma {:induction false} SlotEpochRisesOver(states: seq<State>, steps: seq<Step>, node: nat, i: nat, j: nat)
    requires IsRun(states, steps) && i <= j <= |steps| && node in states[i].slots
    requires forall m :: i <= m < j ==> steps[m] != Restart(node)
    ensures node in states[j].slots && states[i].slots[node].epoch <= states[j].slots[node].epoch
    decreases j - i
  {
    if i < j {
      SlotEpochRisesOver(states, steps, node, i, j - 1);
      EvolvesAt(states, steps, j - 1);
    }
  }

  /** Once publishing has stopped, one completed poll is enough: from then on, whenever
      the node carries no pending arm, it holds exactly the stored set and epoch. */
  lemma QuietPollConverges(states: seq<State>, steps: seq<Step>, sel: nat, id: nat, i: nat, j: nat, q: nat)
    requires OneBucketRun(states, steps, sel) && i < j < q <= |steps|
    requires steps[i].BeginPoll? && steps[i].id == id
    requires forall m :: i < m <= j ==> id in states[m].tasks
    requires id !in states[j + 1].tasks && steps[j] != Abort(id) && steps[j] != Restart(steps[i].node)
    requires forall m :: j < m < q ==> steps[m] != Restart(steps[i].node)
    requires forall m :: i <= m < q ==> !steps[m].CasLands?
    ensures steps[i].node in states[q].slots && sel in states[q].buckets
    ensures states[q].slots[steps[i].node].epoch == EpochOn(states[q].buckets[sel])
    ensures !states[q].slots[steps[i].node].unpublished ==>
              states[q].slots[steps[i].node].names == SetOn(states[q].buckets[sel])
  {
    var node := steps[i].node;
    RunSight(states, steps, sel, i);
    RunSight(states, steps, sel, q);
    PollCatchesUp(states, steps, sel, id, i, j);
    SlotEpochRisesOver(states, steps, node, j + 1, q);
    NoPublishNoLog(states, steps, i, q);
    SelectedEpoch(states[i], sel);
    LatestIsStored(states[q], sel, node);
  }

  lemma LatestIsStored(s: State, sel: nat, node: nat)
    requires Inv(s, sel) && node in s.slots && |s.log| <= s.slots[node].epoch
    ensures s.slots[node].epoch == EpochOn(s.buckets[sel])
    ensures !s.slots[node].unpublished ==> s.slots[node].names == SetOn(s.buckets[sel])
  {
    SelectedEpoch(s, sel);
    assert SlotOk(s.log, s.slots[node]);
  }

  lemma {:induction false} NoPublishNoLog(states: seq<State>, steps: seq<Step>, i: nat, j: nat)
    requires IsRun(states, steps) && i <= j <= |steps|
    requires forall m :: i <= m < j ==> !steps[m].CasLands?
    ensures states[i].log == states[j].log
    decreases j - i
  {
    if i < j {
      NoPublishNoLog(states, steps, i, j - 1);
      EvolvesAt(states, steps, j - 1);
    }
  }
}
