/** How work in flight ends: what a poll leaves behind it, and why a publish call fails. */
module QuarantineCalls {
  import opened Prelude
  import opened QuarantineSlot
  import opened QuarantineProtocol
  import opened QuarantineInvariant
  import opened QuarantineTheorems

  // ----- What one step can do to a call or a poll -----------------------------------------------------

  /** The call is told that its conditional write met another writer. */
  predicate IsConflict(step: Step, id: nat) {
    step == CasLoses(id) || (step.CasLands? && step.id == id && step.report.Conflict?)
  }

  /** A publish call that someone waits for and that has not returned. */
  predicate LiveCall(t: Task) {
    t.Publish? && t.waited && !t.phase.Returned?
  }

  /** Why a call can return an error other than by a conflict: it was aborted, its write was
      reported failed, or a single-name edit found a body that does not parse. */
  predicate FailsOutright(s: State, step: Step, id: nat) {
    || step == Abort(id)
    || (step.CasLands? && step.id == id && step.report.Failed?)
    || (step == Fetch(id) && id in s.tasks && s.tasks[id].Publish? && !s.tasks[id].edit.Sweep?
        && s.tasks[id].bucket in s.buckets && Unparsed(s.buckets[s.tasks[id].bucket]))
  }

  predicate Unparsed(b: Bucket) {
    b.current.Some? && b.current.value.body.Unreadable?
  }

  /** A live call stays live, unless it is abandoned or returns; only a conflict costs it an
      attempt, the last one making it return an error; and no call comes back to life. */
  predicate CallMoves(s: State, step: Step, s': State, id: nat) {
    id in s.tasks && id in s'.tasks && s.tasks[id].Publish? ==>
      var t, t' := s.tasks[id], s'.tasks[id];
      && t'.Publish? && (LiveCall(t') ==> LiveCall(t))
      && (LiveCall(t) ==>
            if IsConflict(step, id) then
              if t.attempts <= 1 then t'.phase == Returned(false, 0, false)
              else t'.attempts == t.attempts - 1 && t'.phase.Ready? && t'.waited
            else
              && t'.attempts == t.attempts
              && (t'.phase.Returned? && !t'.phase.ok ==> FailsOutright(s, step, id)))
  }

  /** A poll goes only by an abort, its node's restart, an unmoved etag, a body that does not
      parse, or its adoption. */
  predicate PollMoves(s: State, step: Step, s': State, id: nat) {
    id in s.tasks && s.tasks[id].Poll? && id !in s'.tasks ==>
      || step == Abort(id) || step == Restart(s.tasks[id].node) || step == ComparePoll(id) || step == EndPoll(id)
      || (step == GetPoll(id) && s.tasks[id].bucket in s.buckets && Unparsed(s.buckets[s.tasks[id].bucket]))
  }

  lemma NodeEnds(s: State, step: Step, id: nat)
    requires CanNode(s, step)
    ensures CallMoves(s, step, ApplyNode(s, step), id) && PollMoves(s, step, ApplyNode(s, step), id)
  {
  }

  lemma BeginEnds(s: State, step: Step, id: nat)
    requires CanBegin(s, step)
    ensures CallMoves(s, step, ApplyBegin(s, step), id) && PollMoves(s, step, ApplyBegin(s, step), id)
  {
  }

  lemma AttemptEnds(s: State, step: Step, id: nat)
    requires CanAttempt(s, step)
    ensures CallMoves(s, step, ApplyAttempt(s, step), id) && PollMoves(s, step, ApplyAttempt(s, step), id)
  {
  }

  lemma ReturnEnds(s: State, step: Step, id: nat)
    requires CanReturn(s, step)
    ensures CallMoves(s, step, ApplyReturn(s, step), id) && PollMoves(s, step, ApplyReturn(s, step), id)
  {
  }

  lemma CasEnds(s: State, step: Step, id: nat)
    requires CanCas(s, step)
    ensures CallMoves(s, step, ApplyCas(s, step), id) && PollMoves(s, step, ApplyCas(s, step), id)
  {
  }

  lemma EndEnds(s: State, step: Step, id: nat)
    requires CanEnd(s, step)
    ensures CallMoves(s, step, ApplyEnd(s, step), id) && PollMoves(s, step, ApplyEnd(s, step), id)
  {
  }

  lemma PollEnds(s: State, step: Step, id: nat)
    requires CanPoll(s, step)
    ensures CallMoves(s, step, ApplyPoll(s, step), id) && PollMoves(s, step, ApplyPoll(s, step), id)
  {
  }

  lemma AdoptEnds(s: State, step: Step, id: nat)
    requires CanAdopt(s, step)
    ensures CallMoves(s, step, ApplyAdopt(s, step), id) && PollMoves(s, step, ApplyAdopt(s, step), id)
  {
  }

  lemma SeedEnds(s: State, step: Step, id: nat)
    requires CanSeed(s, step)
    ensures CallMoves(s, step, ApplySeed(s, step), id) && PollMoves(s, step, ApplySeed(s, step), id)
  {
  }

  lemma SeedWriteEnds(s: State, step: Step, id: nat)
    requires CanSeedWrite(s, step)
    ensures CallMoves(s, step, ApplySeedWrite(s, step), id) && PollMoves(s, step, ApplySeedWrite(s, step), id)
  {
  }

  lemma StepEnds(s: State, step: Step, id: nat)
    requires Enabled(s, step)
    ensures CallMoves(s, step, Apply(s, step), id) && PollMoves(s, step, Apply(s, step), id)
  {
    match KindOf(step)
    case NodeKind => NodeEnds(s, step, id);
    case BeginKind => BeginEnds(s, step, id);
    case AttemptKind => AttemptEnds(s, step, id);
    case ReturnKind => ReturnEnds(s, step, id);
    case CasKind => CasEnds(s, step, id);
    case EndKind => EndEnds(s, step, id);
    case PollKind => PollEnds(s, step, id);
    case AdoptKind => AdoptEnds(s, step, id);
    case SeedKind => SeedEnds(s, step, id);
    case SeedWriteKind => SeedWriteEnds(s, step, id);
  }

  lemma EndsAt(states: seq<State>, steps: seq<Step>, id: nat, i: nat)
    requires IsRun(states, steps) && i < |steps|
    ensures CallMoves(states[i], steps[i], states[i + 1], id) && PollMoves(states[i], steps[i], states[i + 1], id)
  {
    assert Joined(states, steps, i);
    StepEnds(states[i], steps[i], id);
  }

  // ----- Conflicts, counted in the steps ------------------------------------------------------------------

  /** How many conflicts the call was told of in the steps from `i` up to `j`. */
  function Conflicts(steps: seq<Step>, id: nat, i: nat, j: nat): nat
    requires i <= j <= |steps|
  {
    if i == j then 0 else Conflicts(steps, id, i, j - 1) + (if IsConflict(steps[j - 1], id) then 1 else 0)
  }

  /** The call `id` begins at step `i` and is in flight up to state `j`. */
  ghost predicate InFlight(states: seq<State>, steps: seq<Step>, id: nat, i: nat, j: nat) {
    && IsRun(states, steps) && i < j <= |steps|
    && (steps[i].BeginPublish? || steps[i].EndWalk?) && steps[i].id == id
    && forall q :: i < q <= j ==> id in states[q].tasks
  }

  lemma CallStarts(states: seq<State>, steps: seq<Step>, i: nat)
    requires IsRun(states, steps) && i < |steps| && (steps[i].BeginPublish? || steps[i].EndWalk?)
    ensures steps[i].id in states[i + 1].tasks
    ensures var t := states[i + 1].tasks[steps[i].id]; LiveCall(t) && t.attempts == 8 && t.phase.Ready?
  {
    assert Joined(states, steps, i);
  }

  /** While the call lives, eight less the conflicts it met is what it has left, and that is
      at least one. */
  lemma {:induction false} AttemptsLeft(states: seq<State>, steps: seq<Step>, id: nat, i: nat, j: nat)
    requires InFlight(states, steps, id, i, j)
    ensures states[j].tasks[id].Publish?
    ensures LiveCall(states[j].tasks[id]) ==>
              states[j].tasks[id].attempts + Conflicts(steps, id, i + 1, j) == 8 && states[j].tasks[id].attempts >= 1
    decreases j
  {
    if j == i + 1 {
      CallStarts(states, steps, i);
    } else {
      AttemptsLeft(states, steps, id, i, j - 1);
      EndsAt(states, steps, id, j - 1);
      assert id in states[j - 1].tasks && id in states[j].tasks;
    }
  }

  /** A live call is told of a conflict: before the eighth it may read the bucket again, and
      at the eighth it returns an error. */
  lemma ConflictRetriesOrGivesUp(states: seq<State>, steps: seq<Step>, id: nat, i: nat, j: nat)
    requires InFlight(states, steps, id, i, j) && j < |steps|
    requires LiveCall(states[j].tasks[id]) && IsConflict(steps[j], id)
    ensures id in states[j + 1].tasks && states[j + 1].tasks[id].Publish?
    ensures Conflicts(steps, id, i + 1, j + 1) < 8 ==> CanAttempt(states[j + 1], Fetch(id))
    ensures Conflicts(steps, id, i + 1, j + 1) >= 8 ==> states[j + 1].tasks[id].phase == Returned(false, 0, false)
  {
    AttemptsLeft(states, steps, id, i, j);
    EndsAt(states, steps, id, j);
    ConflictKeepsPlace(states, steps, id, j);
  }

  lemma ConflictKeepsPlace(states: seq<State>, steps: seq<Step>, id: nat, j: nat)
    requires IsRun(states, steps) && j < |steps| && IsConflict(steps[j], id)
    ensures Publishing(states[j + 1], id)
  {
    assert Joined(states, steps, j);
  }

  /** A call that returns an error was aborted, had its write reported failed, was a single
      name's edit of a body that does not parse, or was told of its eighth conflict. */
  lemma ErrorHasCause(states: seq<State>, steps: seq<Step>, id: nat, i: nat, j: nat)
    requires InFlight(states, steps, id, i, j + 1) && i < j && LiveCall(states[j].tasks[id])
    requires states[j + 1].tasks[id].Publish?
    requires states[j + 1].tasks[id].phase.Returned? && !states[j + 1].tasks[id].phase.ok
    ensures || FailsOutright(states[j], steps[j], id)
            || (IsConflict(steps[j], id) && Conflicts(steps, id, i + 1, j + 1) == 8)
  {
    AttemptsLeft(states, steps, id, i, j);
    EndsAt(states, steps, id, j);
    assert id in states[j].tasks && id in states[j + 1].tasks;
  }

  // ----- Giving up --------------------------------------------------------------------------------------------

  lemma ConflictWasOvertaken(s: State, sel: nat, step: Step, id: nat)
    requires Inv(s, sel) && Enabled(s, step) && IsConflict(step, id)
    ensures id in s.tasks && s.tasks[id].Publish? && FloorOf(s.tasks[id]) < |Apply(s, step).log|
  {
    assert TaskOk(s.log, s.buckets, sel, s.tasks[id]);
    if step.CasLoses? {
      LoserWasOvertaken(s, sel, id);
    } else {
      CasFindsLatest(s, sel, step);
    }
    StepEvolves(s, step);
  }

  lemma OvertakenAt(states: seq<State>, steps: seq<Step>, sel: nat, id: nat, j: nat)
    requires FleetRun(states, steps, sel) && j < |steps| && IsConflict(steps[j], id)
    ensures id in states[j].tasks && states[j].tasks[id].Publish? && FloorOf(states[j].tasks[id]) < |states[j + 1].log|
  {
    RunInv(states, steps, sel, j);
    assert Joined(states, steps, j);
    ConflictWasOvertaken(states[j], sel, steps[j], id);
  }

  /** A call that a conflict makes return an error had at least eight publishes land while it
      ran: every conflict it met is a publish of someone else's, or one of its own that
      landed and was reported as lost. */
  lemma GivingUpTakesEightPublishes(states: seq<State>, steps: seq<Step>, sel: nat, id: nat, i: nat, j: nat)
    requires FleetRun(states, steps, sel) && InFlight(states, steps, id, i, j + 1)
    requires i < j && LiveCall(states[j].tasks[id])
    requires IsConflict(steps[j], id) && states[j + 1].tasks[id].Publish? && states[j + 1].tasks[id].phase.Returned?
    ensures |states[i + 1].log| + 8 <= |states[j + 1].log|
  {
    CallBegins(states, steps, i);
    TaskPersists(states, steps, id, i + 1, j);
    AttemptsLeft(states, steps, id, i, j);
    EndsAt(states, steps, id, j);
    assert id in states[j].tasks && id in states[j + 1].tasks;
    OvertakenAt(states, steps, sel, id, j);
  }

  // ----- Walks ---------------------------------------------------------------------------------------------------

  /** However long a walk takes, and whatever lands meanwhile, the sweep it ends in merges
      against what was stored when it began. */
  lemma WalkKeepsItsBase(states: seq<State>, steps: seq<Step>, id: nat, i: nat, j: nat)
    requires IsRun(states, steps) && i < j < |steps| && steps[i].BeginWalk? && steps[i].id == id
    requires steps[j].EndWalk? && steps[j].id == id && forall q :: i < q <= j ==> id in states[q].tasks
    ensures steps[i].bucket in states[i].buckets && id in states[j + 1].tasks
    ensures var t, b := states[j + 1].tasks[id], states[i].buckets[steps[i].bucket];
      && t.Publish? && t.node == steps[i].node && t.bucket == steps[i].bucket
      && t.edit == Sweep(steps[j].derived, SetOn(b), EpochOn(b))
  {
    assert Joined(states, steps, i);
    TaskPersists(states, steps, id, i + 1, j);
    assert Joined(states, steps, j);
  }

  // ----- The durable status ----------------------------------------------------------------------------------------

  lemma NodeStatus(s: State, step: Step)
    requires CanNode(s, step)
    ensures ApplyNode(s, step).status == if step.SetStatus? then s.status[step.name := step.blocked] else s.status
  {
  }

  lemma WorkStatus(s: State, step: Step)
    ensures CanBegin(s, step) ==> ApplyBegin(s, step).status == s.status
    ensures CanAttempt(s, step) ==> ApplyAttempt(s, step).status == s.status
    ensures CanReturn(s, step) ==> ApplyReturn(s, step).status == s.status
  {
  }

  lemma EndStatus(s: State, step: Step)
    ensures CanCas(s, step) ==> ApplyCas(s, step).status == s.status
    ensures CanEnd(s, step) ==> ApplyEnd(s, step).status == s.status
  {
  }

  lemma SeedStatus(s: State, step: Step)
    ensures CanPoll(s, step) ==> ApplyPoll(s, step).status == s.status
    ensures CanAdopt(s, step) ==> ApplyAdopt(s, step).status == s.status
    ensures CanSeed(s, step) ==> ApplySeed(s, step).status == s.status
    ensures CanSeedWrite(s, step) ==> ApplySeedWrite(s, step).status == s.status
  {
  }

  lemma StatusAfter(s: State, step: Step)
    requires Enabled(s, step)
    ensures Apply(s, step).status == if step.SetStatus? then s.status[step.name := step.blocked] else s.status
  {
    if KindOf(step) == NodeKind {
      NodeStatus(s, step);
    } else {
      WorkStatus(s, step);
      EndStatus(s, step);
      SeedStatus(s, step);
    }
  }

  /** A name's durable status is what was last written for it. */
  lemma {:induction false} StatusIsLastWritten(states: seq<State>, steps: seq<Step>, i: nat, j: nat)
    requires IsRun(states, steps) && i < j <= |steps| && steps[i].SetStatus?
    requires forall m :: i < m < j ==> !(steps[m].SetStatus? && steps[m].name == steps[i].name)
    ensures steps[i].name in states[j].status && states[j].status[steps[i].name] == steps[i].blocked
    decreases j
  {
    assert Joined(states, steps, j - 1);
    StatusAfter(states[j - 1], steps[j - 1]);
    if i < j - 1 {
      StatusIsLastWritten(states, steps, i, j - 1);
    }
  }
}
