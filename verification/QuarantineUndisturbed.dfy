/** What each piece of work does when nothing disturbs it: its steps are enabled one after
    the other from any state, and leave exactly the outcome a caller counts on. */
module QuarantineUndisturbed {
  import opened Prelude
  import opened QuarantineSlot
  import opened QuarantineProtocol
  import opened QuarantineTheorems

  // ----- Steps in a row --------------------------------------------------------------------------

  ghost predicate DoesBy(states: seq<State>, s: State, steps: seq<Step>, s': State) {
    IsRun(states, steps) && states[0] == s && states[|steps|] == s'
  }

  /** From `s` the steps are enabled one after the other and lead to `s'`. */
  ghost predicate Does(s: State, steps: seq<Step>, s': State) {
    exists states :: DoesBy(states, s, steps, s')
  }

  predicate Moves(s: State, step: Step, s': State) {
    Enabled(s, step) && Apply(s, step) == s'
  }

  lemma First(s: State, step: Step, s': State)
    requires Moves(s, step, s')
    ensures Does(s, [step], s')
  {
    assert Joined([s, s'], [step], 0);
    assert DoesBy([s, s'], s, [step], s');
  }

  lemma RunsJoin(states: seq<State>, a: seq<Step>, states': seq<State>, b: seq<Step>)
    requires IsRun(states, a) && IsRun(states', b) && states[|a|] == states'[0]
    ensures IsRun(states + states'[1..], a + b)
  {
    var all, steps := states + states'[1..], a + b;
    forall i | 0 <= i < |steps|
      ensures Joined(all, steps, i)
    {
      if i < |a| {
        assert Joined(states, a, i);
        assert all[i] == states[i] && all[i + 1] == states[i + 1] && steps[i] == a[i];
      } else {
        var k := i - |a|;
        assert Joined(states', b, k);
        assert all[i] == states'[k] && all[i + 1] == states'[k + 1] && steps[i] == b[k];
      }
    }
  }

  lemma Chain(s: State, a: seq<Step>, s1: State, b: seq<Step>, s2: State)
    requires Does(s, a, s1) && Does(s1, b, s2)
    ensures Does(s, a + b, s2)
  {
    var states :| DoesBy(states, s, a, s1);
    var states' :| DoesBy(states', s1, b, s2);
    RunsJoin(states, a, states', b);
    assert DoesBy(states + states'[1..], s, a + b, s2);
  }

  lemma Next(s: State, steps: seq<Step>, s1: State, step: Step, s2: State)
    requires Does(s, steps, s1) && Moves(s1, step, s2)
    ensures Does(s, steps + [step], s2)
  {
    First(s1, step, s2);
    Chain(s, steps, s1, [step], s2);
  }

  // ----- An arm and a restart --------------------------------------------------------------------------

  /** A local arm takes effect at once, on its own node alone: its name gets the asked
      membership and no other name moves, the epoch and the etag stay, and the flag goes up if
      anything changed. */
  lemma UndisturbedArm(s: State, node: nat, name: string, blocked: bool) returns (names: set<string>)
    requires node in s.slots
    ensures forall n :: n in names <==> if n == name then blocked else n in s.slots[node].names
    ensures var slot := s.slots[node];
      Moves(s, ArmLocal(node, name, blocked),
            SetSlot(s, node, Slot(names, slot.epoch, slot.etag, slot.unpublished || names != slot.names)))
  {
    var slot := s.slots[node];
    names := if blocked then slot.names + {name} else slot.names - {name};
    assert (name in slot.names) == blocked ==> names == slot.names;
    assert (name in slot.names) != blocked ==> names != slot.names;
  }

  /** A restart leaves the node knowing nothing; the stored sets and the other nodes stay. */
  lemma UndisturbedRestart(s: State, node: nat)
    requires node in s.slots
    ensures var s' := Apply(s, Restart(node));
      && Enabled(s, Restart(node)) && s'.slots == s.slots[node := Slot({}, 0, None, false)]
      && s'.buckets == s.buckets && s'.status == s.status && s'.log == s.log
      && (forall id :: id in s.tasks && s.tasks[id].node != node ==> id in s'.tasks && s'.tasks[id] == s.tasks[id])
      && (forall id :: id in s'.tasks && s'.tasks[id].node == node ==> Sent(s'.tasks[id]))
  {
  }

  // ----- A poll -------------------------------------------------------------------------------------

  /** The slot after a pair is offered to it: taken when its epoch is higher, or equal with
      no other pending arm in the way; the etag is recorded either way. */
  function Offered(slot: Slot, names: set<string>, epoch: nat, etag: Option<nat>): Slot {
    if epoch > slot.epoch || (epoch == slot.epoch && (slot.unpublished ==> names == slot.names))
    then Slot(names, epoch, etag, false)
    else Slot(slot.names, slot.epoch, etag, slot.unpublished)
  }

  lemma AdoptIsOffered(slot: Slot, names: set<string>, epoch: nat, etag: Option<Option<nat>>)
    ensures Adopt(slot, names, epoch, etag) == Offered(slot, names, epoch, if etag.Some? then etag.value else slot.etag)
  {
  }

  function PollTask(node: nat, bucket: nat, o: Object, floor: nat, progress: Progress): Task {
    Poll(node, bucket, o.listed, floor, progress)
  }

  lemma PollLists(s: State, id: nat, node: nat, bucket: nat, o: Object)
    requires id !in s.tasks && node in s.slots && bucket in s.buckets && s.buckets[bucket].current == Some(o)
    ensures Moves(s, BeginPoll(id, node, bucket), SetTask(s, id, PollTask(node, bucket, o, |s.log|, Listed)))
  {
  }

  lemma PollCompares(s: State, id: nat, node: nat, bucket: nat, o: Object)
    requires id !in s.tasks && node in s.slots && bucket in s.buckets
    ensures Moves(SetTask(s, id, PollTask(node, bucket, o, |s.log|, Listed)), ComparePoll(id),
                  if s.slots[node].etag == Some(o.listed) then s
                  else SetTask(s, id, PollTask(node, bucket, o, |s.log|, Moved)))
  {
    var listed := SetTask(s, id, PollTask(node, bucket, o, |s.log|, Listed));
    assert DropTask(listed, id).tasks == s.tasks;
    var moved := PollTask(node, bucket, o, |s.log|, Moved);
    assert SetTask(listed, id, moved).tasks == SetTask(s, id, moved).tasks;
  }

  lemma PollGets(s: State, id: nat, node: nat, bucket: nat, o: Object)
    requires id !in s.tasks && node in s.slots && bucket in s.buckets && s.buckets[bucket].current == Some(o)
    ensures Moves(SetTask(s, id, PollTask(node, bucket, o, |s.log|, Moved)), GetPoll(id),
                  if o.body.Unreadable? then s
                  else SetTask(s, id, PollTask(node, bucket, o, |s.log|, Got(o.body.names, o.body.epoch))))
  {
    var moved := SetTask(s, id, PollTask(node, bucket, o, |s.log|, Moved));
    assert DropTask(moved, id).tasks == s.tasks;
    if o.body.Readable? {
      var got := PollTask(node, bucket, o, |s.log|, Got(o.body.names, o.body.epoch));
      assert SetTask(moved, id, got).tasks == SetTask(s, id, got).tasks;
    }
  }

  lemma PollAdopts(s: State, id: nat, node: nat, bucket: nat, o: Object, names: set<string>, epoch: nat)
    requires id !in s.tasks && node in s.slots && bucket in s.buckets
    ensures Moves(SetTask(s, id, PollTask(node, bucket, o, |s.log|, Got(names, epoch))), EndPoll(id),
                  SetSlot(s, node, Offered(s.slots[node], names, epoch, Some(o.listed))))
  {
    AdoptIsOffered(s.slots[node], names, epoch, Some(Some(o.listed)));
    var got := SetTask(s, id, PollTask(node, bucket, o, |s.log|, Got(names, epoch)));
    assert got.tasks - {id} == s.tasks;
  }

  /** A whole poll, from any state. When the listing etag has not moved it ends there; when
      the body does not parse it keeps everything; otherwise it offers the stored pair to
      the node under the listed etag. It changes nothing else. */
  lemma UndisturbedPoll(s: State, id: nat, node: nat, bucket: nat)
    requires id !in s.tasks && node in s.slots && bucket in s.buckets && s.buckets[bucket].current.Some?
    ensures var o := s.buckets[bucket].current.value; var slot := s.slots[node];
      if slot.etag == Some(o.listed) then Does(s, [BeginPoll(id, node, bucket), ComparePoll(id)], s)
      else if o.body.Unreadable? then
        Does(s, [BeginPoll(id, node, bucket), ComparePoll(id), GetPoll(id)], s)
      else
        Does(s, [BeginPoll(id, node, bucket), ComparePoll(id), GetPoll(id), EndPoll(id)],
          SetSlot(s, node, Offered(slot, o.body.names, o.body.epoch, Some(o.listed))))
  {
    var o := s.buckets[bucket].current.value;
    var begin, compare, get, end := BeginPoll(id, node, bucket), ComparePoll(id), GetPoll(id), EndPoll(id);
    PollLists(s, id, node, bucket, o);
    PollCompares(s, id, node, bucket, o);
    var listed := SetTask(s, id, PollTask(node, bucket, o, |s.log|, Listed));
    var moved := SetTask(s, id, PollTask(node, bucket, o, |s.log|, Moved));
    First(s, begin, listed);
    assert [begin] + [compare] == [begin, compare];
    if s.slots[node].etag == Some(o.listed) {
      Next(s, [begin], listed, compare, s);
    } else {
      Next(s, [begin], listed, compare, moved);
      PollGets(s, id, node, bucket, o);
      assert [begin, compare] + [get] == [begin, compare, get];
      if o.body.Unreadable? {
        Next(s, [begin, compare], moved, get, s);
      } else {
        var got := SetTask(s, id, PollTask(node, bucket, o, |s.log|, Got(o.body.names, o.body.epoch)));
        Next(s, [begin, compare], moved, get, got);
        PollAdopts(s, id, node, bucket, o, o.body.names, o.body.epoch);
        assert [begin, compare, get] + [end] == [begin, compare, get, end];
        Next(s, [begin, compare, get], got, end,
             SetSlot(s, node, Offered(s.slots[node], o.body.names, o.body.epoch, Some(o.listed))));
      }
    }
  }

  // ----- A publish ------------------------------------------------------------------------------------

  /** A publish call in flight: who runs it, where, and what it does. */
  datatype Call = Call(id: nat, node: nat, bucket: nat, edit: Edit, began: nat)

  /** `s` with the call in a given phase. */
  function At(s: State, c: Call, phase: Phase): State {
    s.(tasks := s.tasks[c.id := Publish(c.node, c.bucket, c.edit, c.began, CAS_ATTEMPTS, phase, true)])
  }

  predicate Placed(s: State, c: Call) {
    c.node in s.slots && c.bucket in s.buckets
  }

  lemma AttemptMoves(s: State, c: Call, p: Phase, step: Step)
    requires CanAttempt(At(s, c, p), step) && OwnAttempt(step, c.id)
    ensures Moves(At(s, c, p), step, At(s, c, NextPhase(At(s, c, p), step)))
  {
    assert ApplyAttempt(At(s, c, p), step) == At(s, c, NextPhase(At(s, c, p), step));
  }

  /** The bucket is older than the node, and the edit is not a whole set. */
  predicate Behind(view: View, slot: Slot, edit: Edit) {
    view.epoch < slot.epoch && !edit.Sweep?
  }

  /** The set an undisturbed edit is applied to. */
  function Have(view: View, slot: Slot, edit: Edit): set<string> {
    if Behind(view, slot, edit) then slot.names else view.names
  }

  function Basis(view: View, slot: Slot, edit: Edit): Phase {
    Based(view, Behind(view, slot, edit), slot.epoch, Have(view, slot, edit),
          if Behind(view, slot, edit) then slot.epoch else view.epoch)
  }

  function Chosen(view: View, slot: Slot, edit: Edit, next: set<string>, verdict: bool, looked: nat): Phase {
    Derived(view, Behind(view, slot, edit), slot.epoch, Have(view, slot, edit),
            if Behind(view, slot, edit) then slot.epoch else view.epoch, next, verdict, looked)
  }

  function AttemptSteps(id: nat): seq<Step> {
    [Fetch(id), Judge(id), Rebase(id), Decide(id)]
  }

  lemma AttemptDecides(s: State, c: Call, view: View, next: set<string>, verdict: bool)
    requires Placed(s, c) && ReadView(s.buckets[c.bucket], c.edit) == Some(view)
    requires var have := Have(view, s.slots[c.node], c.edit);
             DecideVerdict(c.edit, have, s.status) == verdict && NextSet(c.edit, view, have, verdict) == next
    ensures Does(At(s, c, Ready), AttemptSteps(c.id),
              At(s, c, Chosen(view, s.slots[c.node], c.edit, next, verdict, |s.log|)))
  {
    var slot := s.slots[c.node];
    var judged := Judged(view, Behind(view, slot, c.edit), slot.epoch);
    AttemptMoves(s, c, Ready, Fetch(c.id));
    First(At(s, c, Ready), Fetch(c.id), At(s, c, Fetched(view)));
    AttemptMoves(s, c, Fetched(view), Judge(c.id));
    Next(At(s, c, Ready), [Fetch(c.id)], At(s, c, Fetched(view)), Judge(c.id), At(s, c, judged));
    AttemptDecidesRest(s, c, view, next, verdict);
    Chain(At(s, c, Ready), [Fetch(c.id)] + [Judge(c.id)], At(s, c, judged), [Rebase(c.id), Decide(c.id)],
          At(s, c, Chosen(view, slot, c.edit, next, verdict, |s.log|)));
    assert [Fetch(c.id)] + [Judge(c.id)] + [Rebase(c.id), Decide(c.id)] == AttemptSteps(c.id);
  }

  lemma AttemptDecidesRest(s: State, c: Call, view: View, next: set<string>, verdict: bool)
    requires Placed(s, c)
    requires var have := Have(view, s.slots[c.node], c.edit);
             DecideVerdict(c.edit, have, s.status) == verdict && NextSet(c.edit, view, have, verdict) == next
    ensures var slot := s.slots[c.node];
      Does(At(s, c, Judged(view, Behind(view, slot, c.edit), slot.epoch)), [Rebase(c.id), Decide(c.id)],
        At(s, c, Chosen(view, slot, c.edit, next, verdict, |s.log|)))
  {
    var slot := s.slots[c.node];
    var judged := Judged(view, Behind(view, slot, c.edit), slot.epoch);
    AttemptMoves(s, c, judged, Rebase(c.id));
    First(At(s, c, judged), Rebase(c.id), At(s, c, Basis(view, slot, c.edit)));
    AttemptMoves(s, c, Basis(view, slot, c.edit), Decide(c.id));
    Next(At(s, c, judged), [Rebase(c.id)], At(s, c, Basis(view, slot, c.edit)), Decide(c.id),
         At(s, c, Chosen(view, slot, c.edit, next, verdict, |s.log|)));
    assert [Rebase(c.id)] + [Decide(c.id)] == [Rebase(c.id), Decide(c.id)];
  }

  /** The call returned Ok, its node's slot now `slot`. */
  function Done(s: State, c: Call, slot: Slot, at: nat, verdict: bool): State {
    At(SetSlot(s, c.node, slot), c, Returned(true, at, verdict))
  }

  lemma ConfirmMoves(s: State, c: Call, view: View, verdict: bool)
    requires Placed(s, c) && !Behind(view, s.slots[c.node], c.edit)
    ensures var slot := s.slots[c.node];
      Moves(At(s, c, Chosen(view, slot, c.edit, view.names, verdict, |s.log|)), Confirm(c.id),
            Done(s, c, Offered(slot, view.names, view.epoch, slot.etag), view.epoch, verdict))
  {
    AdoptIsOffered(s.slots[c.node], view.names, view.epoch, None);
    var slot := s.slots[c.node];
    var chosen := At(s, c, Chosen(view, slot, c.edit, view.names, verdict, |s.log|));
    assert ApplyReturn(chosen, Confirm(c.id))
        == Done(s, c, Offered(slot, view.names, view.epoch, slot.etag), view.epoch, verdict);
  }

  /** `s` with a publish of `next` at `epoch` landed under a new token. */
  function Written(s: State, c: Call, next: set<string>, verdict: bool, epoch: nat, token: nat): State
    requires c.bucket in s.buckets
  {
    s.(buckets := s.buckets[c.bucket := Put(s.buckets[c.bucket], Readable(next, epoch), token, token)],
       log := s.log + [Entry(next, epoch, c.edit, verdict, |s.log|)])
  }

  /** The publish landed; the peers are still to be written through to. */
  function Landing(s: State, c: Call, next: set<string>, verdict: bool, epoch: nat, token: nat, peers: seq<nat>): State
    requires c.bucket in s.buckets
  {
    At(Written(s, c, next, verdict, epoch, token), c, Phase.Through(Seeding(next, epoch, peers, Idle), verdict))
  }

  predicate NewToken(b: Bucket, token: nat) {
    token !in b.casNames && token !in b.listNames
  }

  lemma LandMoves(s: State, c: Call, p: Phase, token: nat, peers: seq<nat>)
    requires p.Stamped? && p.looked == |s.log| && Placed(s, c)
    requires Matches(s.buckets[c.bucket], p.view.token) && NewToken(s.buckets[c.bucket], token)
    ensures Moves(At(s, c, p), CasLands(c.id, token, token, Wrote, peers),
                  Landing(s, c, p.next, p.verdict, p.epoch, token, peers))
  {
    var step := CasLands(c.id, token, token, Wrote, peers);
    assert ApplyCas(At(s, c, p), step) == Landing(s, c, p.next, p.verdict, p.epoch, token, peers);
  }

  lemma FinishMoves(s: State, c: Call, next: set<string>, verdict: bool, epoch: nat)
    requires Placed(s, c)
    ensures Moves(At(s, c, Phase.Through(Seeding(next, epoch, [], Idle), verdict)), Finish(c.id),
                  Done(s, c, Offered(s.slots[c.node], next, epoch, None), epoch, verdict))
  {
    AdoptIsOffered(s.slots[c.node], next, epoch, Some(None));
    var through := At(s, c, Phase.Through(Seeding(next, epoch, [], Idle), verdict));
    assert ApplyReturn(through, Finish(c.id)) ==
           Done(s, c, Offered(s.slots[c.node], next, epoch, None), epoch, verdict);
  }

  /** Stamp and land, from a decision that is not a confirmation. */
  lemma DecisionLands(s: State, c: Call, view: View, next: set<string>, verdict: bool, token: nat, peers: seq<nat>)
    requires Placed(s, c) && (next != Have(view, s.slots[c.node], c.edit) || Behind(view, s.slots[c.node], c.edit))
    requires Matches(s.buckets[c.bucket], view.token) && NewToken(s.buckets[c.bucket], token)
    requires Max(view.epoch, s.slots[c.node].epoch) < U64_MAX
    ensures var slot := s.slots[c.node]; var epoch := Max(view.epoch, slot.epoch) + 1;
      Does(At(s, c, Chosen(view, slot, c.edit, next, verdict, |s.log|)), LandSteps(c.id, token, peers),
        Landing(s, c, next, verdict, epoch, token, peers))
  {
    var slot := s.slots[c.node];
    var epoch := Max(view.epoch, slot.epoch) + 1;
    var p := Chosen(view, slot, c.edit, next, verdict, |s.log|);
    var stamped := Stamped(p.view, p.behind, p.seen, p.have, p.from, next, verdict, |s.log|, slot.epoch, epoch);
    var cas := CasLands(c.id, token, token, Wrote, peers);
    AttemptMoves(s, c, p, Stamp(c.id));
    First(At(s, c, p), Stamp(c.id), At(s, c, stamped));
    LandMoves(s, c, stamped, token, peers);
    Next(At(s, c, p), [Stamp(c.id)], At(s, c, stamped), cas, Landing(s, c, next, verdict, epoch, token, peers));
    assert [Stamp(c.id)] + [cas] == LandSteps(c.id, token, peers);
  }

  /** An attempt that reads `view` and confirms what it read. */
  lemma Confirms(s: State, c: Call, view: View, verdict: bool)
    requires Placed(s, c) && ReadView(s.buckets[c.bucket], c.edit) == Some(view)
    requires !Behind(view, s.slots[c.node], c.edit) && DecideVerdict(c.edit, view.names, s.status) == verdict
    requires NextSet(c.edit, view, view.names, verdict) == view.names
    ensures var slot := s.slots[c.node];
      Does(At(s, c, Ready), AttemptSteps(c.id) + [Confirm(c.id)],
        Done(s, c, Offered(slot, view.names, view.epoch, slot.etag), view.epoch, verdict))
  {
    AttemptDecides(s, c, view, view.names, verdict);
    ConfirmMoves(s, c, view, verdict);
    var slot := s.slots[c.node];
    Next(At(s, c, Ready), AttemptSteps(c.id),
         At(s, c, Chosen(view, slot, c.edit, view.names, verdict, |s.log|)), Confirm(c.id),
         Done(s, c, Offered(slot, view.names, view.epoch, slot.etag), view.epoch, verdict));
  }

  function LandSteps(id: nat, token: nat, peers: seq<nat>): seq<Step> {
    [Stamp(id), CasLands(id, token, token, Wrote, peers)]
  }

  function WriteSteps(id: nat, token: nat): seq<Step> {
    LandSteps(id, token, []) + [Finish(id)]
  }

  /** An attempt that reads `view` will write `next`. */
  predicate WillWrite(s: State, c: Call, view: View, next: set<string>, verdict: bool) {
    && Placed(s, c) && ReadView(s.buckets[c.bucket], c.edit) == Some(view)
    && Max(view.epoch, s.slots[c.node].epoch) < U64_MAX
    && var have := Have(view, s.slots[c.node], c.edit);
       && DecideVerdict(c.edit, have, s.status) == verdict && NextSet(c.edit, view, have, verdict) == next
       && (next != have || Behind(view, s.slots[c.node], c.edit))
  }

  lemma Lands(s: State, c: Call, view: View, next: set<string>, verdict: bool, token: nat, peers: seq<nat>)
    requires WillWrite(s, c, view, next, verdict) && NewToken(s.buckets[c.bucket], token)
    ensures var epoch := Max(view.epoch, s.slots[c.node].epoch) + 1;
      Does(At(s, c, Ready), AttemptSteps(c.id) + LandSteps(c.id, token, peers),
        Landing(s, c, next, verdict, epoch, token, peers))
  {
    AttemptDecides(s, c, view, next, verdict);
    ReadMatches(s.buckets[c.bucket], c.edit);
    DecisionLands(s, c, view, next, verdict, token, peers);
    var slot := s.slots[c.node];
    var epoch := Max(view.epoch, slot.epoch) + 1;
    Chain(At(s, c, Ready), AttemptSteps(c.id), At(s, c, Chosen(view, slot, c.edit, next, verdict, |s.log|)),
          LandSteps(c.id, token, peers), Landing(s, c, next, verdict, epoch, token, peers));
  }

  /** The attempt writes, with no peers, and the call returns. */
  lemma Writes(s: State, c: Call, view: View, next: set<string>, verdict: bool, token: nat)
    requires WillWrite(s, c, view, next, verdict) && NewToken(s.buckets[c.bucket], token)
    ensures var epoch := Max(view.epoch, s.slots[c.node].epoch) + 1;
      Does(At(s, c, Ready), AttemptSteps(c.id) + WriteSteps(c.id, token),
        Done(Written(s, c, next, verdict, epoch, token), c, Slot(next, epoch, None, false), epoch, verdict))
  {
    var epoch := Max(view.epoch, s.slots[c.node].epoch) + 1;
    var written := Written(s, c, next, verdict, epoch, token);
    Lands(s, c, view, next, verdict, token, []);
    FinishMoves(written, c, next, verdict, epoch);
    Next(At(s, c, Ready), AttemptSteps(c.id) + LandSteps(c.id, token, []),
         Landing(s, c, next, verdict, epoch, token, []), Finish(c.id),
         Done(written, c, Slot(next, epoch, None, false), epoch, verdict));
    assert AttemptSteps(c.id) + LandSteps(c.id, token, []) + [Finish(c.id)] ==
           AttemptSteps(c.id) + WriteSteps(c.id, token);
  }

  lemma ReadMatches(b: Bucket, edit: Edit)
    ensures ReadView(b, edit).Some? ==> Matches(b, ReadView(b, edit).value.token)
  {
  }

  /** The membership a single-name edit of `have` decides on. */
  function Asked(edit: Edit, have: set<string>, status: map<string, bool>): bool
    requires !edit.Sweep?
  {
    if edit.One? || (edit.name in have) == edit.blocked then edit.blocked
    else edit.name in status && status[edit.name]
  }

  /** `have` with the edit's name put to `blocked`. */
  function Edited(edit: Edit, have: set<string>, blocked: bool): (r: set<string>)
    requires !edit.Sweep?
    ensures forall n :: n in r <==> if n == edit.name then blocked else n in have
  {
    if blocked then have + {edit.name} else have - {edit.name}
  }

  /** The set a single-name edit is applied to: the bucket's, or the node's if that is newer. */
  function Newer(b: Bucket, slot: Slot): set<string> {
    if EpochOn(b) < slot.epoch then slot.names else SetOn(b)
  }

  /** The call is about to begin, against an absent or readable bucket. */
  predicate ReadyToEdit(s: State, c: Call) {
    && c.id !in s.tasks && Placed(s, c) && c.began == |s.log| && !c.edit.Sweep?
    && (s.buckets[c.bucket].current.Some? ==> s.buckets[c.bucket].current.value.body.Readable?)
  }

  function EditSteps(c: Call): seq<Step> {
    [BeginPublish(c.id, c.node, c.bucket, c.edit)] + AttemptSteps(c.id)
  }

  lemma EditReads(s: State, c: Call)
    requires ReadyToEdit(s, c)
    ensures var b, slot := s.buckets[c.bucket], s.slots[c.node];
      && ReadView(b, c.edit).Some? && ReadView(b, c.edit).value.names == SetOn(b)
      && ReadView(b, c.edit).value.epoch == EpochOn(b)
      && Have(ReadView(b, c.edit).value, slot, c.edit) == Newer(b, slot)
      && (Behind(ReadView(b, c.edit).value, slot, c.edit) <==> EpochOn(b) < slot.epoch)
  {
  }

  lemma EditContinues(s: State, c: Call, steps: seq<Step>, s': State)
    requires ReadyToEdit(s, c) && Does(At(s, c, Ready), AttemptSteps(c.id) + steps, s')
    ensures Does(s, EditSteps(c) + steps, s')
  {
    var begin := BeginPublish(c.id, c.node, c.bucket, c.edit);
    PublishBegins(s, c);
    First(s, begin, At(s, c, Ready));
    Chain(s, [begin], At(s, c, Ready), AttemptSteps(c.id) + steps, s');
    assert [begin] + (AttemptSteps(c.id) + steps) == EditSteps(c) + steps;
  }

  /** A single-name publish, from any state, that finds its name as it wants it on a bucket
      not behind its node: it writes nothing, offers its node what is stored and returns Ok. */
  lemma UndisturbedConfirm(s: State, c: Call)
    requires ReadyToEdit(s, c) && EpochOn(s.buckets[c.bucket]) >= s.slots[c.node].epoch
    requires var have := SetOn(s.buckets[c.bucket]); (c.edit.name in have) == Asked(c.edit, have, s.status)
    ensures var b, slot := s.buckets[c.bucket], s.slots[c.node];
      Does(s, EditSteps(c) + [Confirm(c.id)],
        Done(s, c, Offered(slot, SetOn(b), EpochOn(b), slot.etag), EpochOn(b), c.edit.name in SetOn(b)))
  {
    var b, slot := s.buckets[c.bucket], s.slots[c.node];
    EditReads(s, c);
    DecidesAsked(c.edit, ReadView(b, c.edit).value, SetOn(b), s.status);
    Confirms(s, c, ReadView(b, c.edit).value, c.edit.name in SetOn(b));
    EditContinues(s, c, [Confirm(c.id)],
                  Done(s, c, Offered(slot, SetOn(b), EpochOn(b), slot.etag), EpochOn(b), c.edit.name in SetOn(b)));
  }

  /** The edit changes its name's membership, or its bucket is behind its node. */
  predicate EditWrites(s: State, c: Call)
    requires Placed(s, c) && !c.edit.Sweep?
  {
    var have := Newer(s.buckets[c.bucket], s.slots[c.node]);
    || (c.edit.name in have) != Asked(c.edit, have, s.status)
    || EpochOn(s.buckets[c.bucket]) < s.slots[c.node].epoch
  }

  /** Any other single-name publish on an absent or readable bucket: the bucket ends with the
      edited set, one above the bucket and the node, and the node with that very pair, its
      flag down and no etag recorded. */
  lemma UndisturbedWrite(s: State, c: Call, token: nat)
    requires ReadyToEdit(s, c) && EditWrites(s, c) && NewToken(s.buckets[c.bucket], token)
    requires Max(EpochOn(s.buckets[c.bucket]), s.slots[c.node].epoch) < U64_MAX
    ensures var b, slot := s.buckets[c.bucket], s.slots[c.node];
      var have := Newer(b, slot);
      var blocked := Asked(c.edit, have, s.status);
      var next, epoch := Edited(c.edit, have, blocked), Max(EpochOn(b), slot.epoch) + 1;
      Does(s, EditSteps(c) + WriteSteps(c.id, token),
        Done(Written(s, c, next, blocked, epoch, token), c, Slot(next, epoch, None, false), epoch, blocked))
  {
    var b, slot := s.buckets[c.bucket], s.slots[c.node];
    var have := Newer(b, slot);
    var blocked := Asked(c.edit, have, s.status);
    var next, epoch := Edited(c.edit, have, blocked), Max(EpochOn(b), slot.epoch) + 1;
    EditReads(s, c);
    DecidesAsked(c.edit, ReadView(b, c.edit).value, have, s.status);
    Writes(s, c, ReadView(b, c.edit).value, next, blocked, token);
    EditContinues(s, c, WriteSteps(c.id, token),
                  Done(Written(s, c, next, blocked, epoch, token), c, Slot(next, epoch, None, false), epoch, blocked));
  }

  lemma DecidesAsked(edit: Edit, view: View, have: set<string>, status: map<string, bool>)
    requires !edit.Sweep?
    ensures DecideVerdict(edit, have, status) == Asked(edit, have, status)
    ensures NextSet(edit, view, have, Asked(edit, have, status)) == Edited(edit, have, Asked(edit, have, status))
    ensures Edited(edit, have, Asked(edit, have, status)) == have <==> (edit.name in have) == Asked(edit, have, status)
  {
    assert With(have, edit.name, edit.blocked) == have <==> (edit.name in have) == edit.blocked;
  }

  lemma PublishBegins(s: State, c: Call)
    requires c.id !in s.tasks && Placed(s, c) && c.began == |s.log| && !c.edit.Sweep?
    ensures Moves(s, BeginPublish(c.id, c.node, c.bucket, c.edit), At(s, c, Ready))
  {
  }

  /** A single-name edit of a body that does not parse fails and leaves everything alone. */
  lemma UndisturbedEditFails(s: State, c: Call)
    requires c.id !in s.tasks && Placed(s, c) && c.began == |s.log| && !c.edit.Sweep?
    requires s.buckets[c.bucket].current.Some? && s.buckets[c.bucket].current.value.body.Unreadable?
    ensures Does(s, [BeginPublish(c.id, c.node, c.bucket, c.edit), Fetch(c.id)],
              At(s, c, Returned(false, 0, false)))
  {
    var begin := BeginPublish(c.id, c.node, c.bucket, c.edit);
    PublishBegins(s, c);
    First(s, begin, At(s, c, Ready));
    AttemptMoves(s, c, Ready, Fetch(c.id));
    Next(s, [begin], At(s, c, Ready), Fetch(c.id), At(s, c, Returned(false, 0, false)));
    assert [begin] + [Fetch(c.id)] == [begin, Fetch(c.id)];
  }

  // ----- A sweep -------------------------------------------------------------------------------------------

  function WalkSteps(c: Call): seq<Step>
    requires c.edit.Sweep?
  {
    [BeginWalk(c.id, c.node, c.bucket), EndWalk(c.id, c.edit.derived)]
  }

  lemma WalkPublishes(s: State, c: Call)
    requires c.id !in s.tasks && Placed(s, c) && c.began == |s.log| && c.edit.Sweep?
    requires c.edit.base == SetOn(s.buckets[c.bucket]) && c.edit.baseEpoch == EpochOn(s.buckets[c.bucket])
    ensures Does(s, WalkSteps(c), At(s, c, Ready))
  {
    var begin, end := BeginWalk(c.id, c.node, c.bucket), EndWalk(c.id, c.edit.derived);
    var walking := SetTask(s, c.id, Walk(c.node, c.bucket, c.edit.base, c.edit.baseEpoch));
    assert Moves(s, begin, walking);
    First(s, begin, walking);
    WalkEnds(s, c);
    Next(s, [begin], walking, end, At(s, c, Ready));
    assert [begin] + [end] == WalkSteps(c);
  }

  lemma WalkEnds(s: State, c: Call)
    requires c.began == |s.log| && c.edit.Sweep?
    ensures Moves(SetTask(s, c.id, Walk(c.node, c.bucket, c.edit.base, c.edit.baseEpoch)),
                  EndWalk(c.id, c.edit.derived),
                  At(s, c, Ready))
  {
    var walking := SetTask(s, c.id, Walk(c.node, c.bucket, c.edit.base, c.edit.baseEpoch));
    assert ApplyBegin(walking, EndWalk(c.id, c.edit.derived)).tasks == At(s, c, Ready).tasks;
  }

  /** The sweep is about to begin its walk; its base is what is stored. */
  predicate ReadyToSweep(s: State, c: Call) {
    && c.id !in s.tasks && Placed(s, c) && c.began == |s.log| && c.edit.Sweep?
    && c.edit.base == SetOn(s.buckets[c.bucket]) && c.edit.baseEpoch == EpochOn(s.buckets[c.bucket])
  }

  lemma SweepReads(s: State, c: Call)
    requires ReadyToSweep(s, c)
    ensures var b := s.buckets[c.bucket];
      && ReadView(b, c.edit).Some? && ReadView(b, c.edit).value.names == SetOn(b)
      && ReadView(b, c.edit).value.epoch == EpochOn(b) && SweepNext(ReadView(b, c.edit).value, c.edit) == c.edit.derived
  {
  }

  /** A sweep that nothing overtakes and that derives what is stored, an absent or unreadable
      body counting as the empty set: it writes nothing and returns Ok. */
  lemma UndisturbedSweepConfirm(s: State, c: Call)
    requires ReadyToSweep(s, c) && c.edit.derived == SetOn(s.buckets[c.bucket])
    ensures var b, slot := s.buckets[c.bucket], s.slots[c.node];
      Does(s, WalkSteps(c) + (AttemptSteps(c.id) + [Confirm(c.id)]),
        Done(s, c, Offered(slot, SetOn(b), EpochOn(b), slot.etag), EpochOn(b), true))
  {
    var b, slot := s.buckets[c.bucket], s.slots[c.node];
    WalkPublishes(s, c);
    SweepReads(s, c);
    Confirms(s, c, ReadView(b, c.edit).value, true);
    Chain(s, WalkSteps(c), At(s, c, Ready), AttemptSteps(c.id) + [Confirm(c.id)],
          Done(s, c, Offered(slot, SetOn(b), EpochOn(b), slot.etag), EpochOn(b), true));
  }

  /** Any other sweep that nothing overtakes, over an absent, readable or unreadable body
      alike: what it derived is stored, one above the bucket and the node. */
  lemma UndisturbedSweepWrite(s: State, c: Call, token: nat)
    requires ReadyToSweep(s, c) && c.edit.derived != SetOn(s.buckets[c.bucket]) && NewToken(s.buckets[c.bucket], token)
    requires Max(EpochOn(s.buckets[c.bucket]), s.slots[c.node].epoch) < U64_MAX
    ensures var derived, epoch := c.edit.derived, Max(EpochOn(s.buckets[c.bucket]), s.slots[c.node].epoch) + 1;
      Does(s, WalkSteps(c) + (AttemptSteps(c.id) + WriteSteps(c.id, token)),
        Done(Written(s, c, derived, true, epoch, token), c, Slot(derived, epoch, None, false), epoch, true))
  {
    var b, slot := s.buckets[c.bucket], s.slots[c.node];
    var derived, epoch := c.edit.derived, Max(EpochOn(b), slot.epoch) + 1;
    WalkPublishes(s, c);
    SweepReads(s, c);
    Writes(s, c, ReadView(b, c.edit).value, derived, true, token);
    Chain(s, WalkSteps(c), At(s, c, Ready), AttemptSteps(c.id) + WriteSteps(c.id, token),
          Done(Written(s, c, derived, true, epoch, token), c, Slot(derived, epoch, None, false), epoch, true));
  }

  // ----- Seeding a bucket --------------------------------------------------------------------------------------

  /** The bucket's copy is absent, unreadable or older than `epoch`. */
  predicate Lacks(b: Bucket, epoch: nat) {
    b.current.Some? && b.current.value.body.Readable? ==> b.current.value.body.epoch < epoch
  }

  /** `t` done with the first bucket of its queue. */
  function Advanced(t: Task): Task
    requires IsSeeding(t) && SeedingOf(t).queue != []
  {
    WithSeeding(t, SeedingOf(t).(queue := SeedingOf(t).queue[1..], held := Idle))
  }

  /** A bucket that cannot be reached, or is overtaken, is passed over; the ones after it are
      still to come. */
  lemma SkipCostsOneBucket(s: State, id: nat)
    requires id in s.tasks && IsSeeding(s.tasks[id]) && SeedingOf(s.tasks[id]).queue != []
    ensures Moves(s, SeedSkip(id), SetTask(s, id, Advanced(s.tasks[id])))
  {
  }

  /** A write-through or a re-seed reaches its next bucket: a bucket that lacks the pair gets
      it, any other is left alone. */
  lemma UndisturbedSeed(s: State, id: nat, token: nat)
    requires SeedTask(s, id) && SeedingOf(s.tasks[id]).held.Idle?
    requires var sd := SeedingOf(s.tasks[id]);
             Lacks(s.buckets[sd.queue[0]], sd.epoch) ==> NewToken(s.buckets[sd.queue[0]], token)
    ensures var t := s.tasks[id]; var sd := SeedingOf(t); var b := s.buckets[sd.queue[0]];
      if Lacks(b, sd.epoch) then
        Does(s, [SeedRead(id), SeedWrite(id, token, token)],
          SetTask(s.(buckets := s.buckets[sd.queue[0] := Put(b, Readable(sd.names, sd.epoch), token, token)]), id,
                  Advanced(t)))
      else
        Does(s, [SeedRead(id)], SetTask(s, id, Advanced(t)))
  {
    var t := s.tasks[id];
    var sd := SeedingOf(t);
    var b := s.buckets[sd.queue[0]];
    if Lacks(b, sd.epoch) {
      var holding := sd.(held := Holding(if b.current.None? then None else Some(b.current.value.cas)));
      SeedReads(s, id, holding);
      var read := SetTask(s, id, WithSeeding(t, holding));
      First(s, SeedRead(id), read);
      SeedWrites(s, id, holding, token);
      var written := s.(buckets := s.buckets[sd.queue[0] := Put(b, Readable(sd.names, sd.epoch), token, token)]);
      Next(s, [SeedRead(id)], read, SeedWrite(id, token, token), SetTask(written, id, Advanced(t)));
      assert [SeedRead(id)] + [SeedWrite(id, token, token)] == [SeedRead(id), SeedWrite(id, token, token)];
    } else {
      SeedReads(s, id, sd.(queue := sd.queue[1..], held := Idle));
      First(s, SeedRead(id), SetTask(s, id, Advanced(t)));
    }
  }

  lemma SeedReads(s: State, id: nat, sd': Seeding)
    requires SeedTask(s, id) && SeedingOf(s.tasks[id]).held.Idle?
    requires var sd := SeedingOf(s.tasks[id]); var b := s.buckets[sd.queue[0]];
      sd' == if Lacks(b, sd.epoch)
             then sd.(held := Holding(if b.current.None? then None else Some(b.current.value.cas)))
             else sd.(queue := sd.queue[1..], held := Idle)
    ensures Moves(s, SeedRead(id), SetTask(s, id, WithSeeding(s.tasks[id], sd')))
  {
  }

  lemma SeedWrites(s: State, id: nat, sd: Seeding, token: nat)
    requires SeedTask(s, id) && sd.queue == SeedingOf(s.tasks[id]).queue
    requires var b := s.buckets[sd.queue[0]];
      NewToken(b, token) && sd.held == Holding(if b.current.None? then None else Some(b.current.value.cas))
    ensures var b := s.buckets[sd.queue[0]];
      var written := s.(buckets := s.buckets[sd.queue[0] := Put(b, Readable(sd.names, sd.epoch), token, token)]);
      Moves(SetTask(s, id, WithSeeding(s.tasks[id], sd)), SeedWrite(id, token, token),
            SetTask(written, id, WithSeeding(s.tasks[id], sd.(queue := sd.queue[1..], held := Idle))))
  {
    var t := s.tasks[id];
    var b := s.buckets[sd.queue[0]];
    var written := s.(buckets := s.buckets[sd.queue[0] := Put(b, Readable(sd.names, sd.epoch), token, token)]);
    var read := SetTask(s, id, WithSeeding(t, sd));
    var rest := sd.(queue := sd.queue[1..], held := Idle);
    assert WithSeeding(WithSeeding(t, sd), rest) == WithSeeding(t, rest);
    assert ApplySeedWrite(read, SeedWrite(id, token, token)).tasks == SetTask(written, id, WithSeeding(t, rest)).tasks;
  }

  /** A node with a published pair re-seeds a bucket that lacks it. */
  lemma UndisturbedReseed(s: State, id: nat, node: nat, bucket: nat, token: nat)
    requires id !in s.tasks && node in s.slots && bucket in s.buckets && NewToken(s.buckets[bucket], token)
    requires s.slots[node].epoch > 0 && !s.slots[node].unpublished && Lacks(s.buckets[bucket], s.slots[node].epoch)
    ensures var slot := s.slots[node]; var b := s.buckets[bucket];
      Does(s, [BeginReseed(id, node, [bucket])] + [SeedRead(id), SeedWrite(id, token, token)],
        SetTask(s.(buckets := s.buckets[bucket := Put(b, Readable(slot.names, slot.epoch), token, token)]), id,
                        Reseed(node, Seeding(slot.names, slot.epoch, [], Idle))))
  {
    var slot := s.slots[node];
    var begun := SetTask(s, id, Reseed(node, Seeding(slot.names, slot.epoch, [bucket], Idle)));
    assert Moves(s, BeginReseed(id, node, [bucket]), begun);
    First(s, BeginReseed(id, node, [bucket]), begun);
    UndisturbedSeed(begun, id, token);
    assert [bucket][1..] == [];
    var seeded := Put(s.buckets[bucket], Readable(slot.names, slot.epoch), token, token);
    var done := SetTask(s.(buckets := s.buckets[bucket := seeded]), id,
                        Reseed(node, Seeding(slot.names, slot.epoch, [], Idle)));
    var t := begun.tasks[id];
    assert SetTask(begun.(buckets := done.buckets), id, Advanced(t)) == done;
    Chain(s, [BeginReseed(id, node, [bucket])], begun, [SeedRead(id), SeedWrite(id, token, token)], done);
  }

  // ----- Writing through to the peers --------------------------------------------------------------------------

  lemma NoSteps(s: State)
    ensures Does(s, [], s)
  {
    assert DoesBy([s], s, [], s);
  }

  /** The bucket after the pair is brought to it. */
  function Healed(b: Bucket, names: set<string>, epoch: nat, token: nat): Bucket {
    if Lacks(b, epoch) then Put(b, Readable(names, epoch), token, token) else b
  }

  /** Every bucket of the queue has a token of its own to be written under. */
  predicate Reachable(buckets: map<nat, Bucket>, sd: Seeding, tokens: map<nat, nat>) {
    forall b :: b in sd.queue ==>
      && b in buckets && b in tokens
      && (Lacks(buckets[b], sd.epoch) ==> NewToken(buckets[b], tokens[b]))
  }

  /** The buckets after the whole queue is written through to. */
  function HealedAll(buckets: map<nat, Bucket>, sd: Seeding, tokens: map<nat, nat>): map<nat, Bucket>
    requires Reachable(buckets, sd, tokens)
  {
    map b | b in buckets :: if b in sd.queue then Healed(buckets[b], sd.names, sd.epoch, tokens[b]) else buckets[b]
  }

  /** Bringing the pair to the first bucket of the queue, then to the rest. */
  lemma HealsFirst(buckets: map<nat, Bucket>, sd: Seeding, tokens: map<nat, nat>)
    requires Reachable(buckets, sd, tokens) && sd.queue != []
    ensures var b := sd.queue[0]; var rest := sd.(queue := sd.queue[1..]);
      var healed := buckets[b := Healed(buckets[b], sd.names, sd.epoch, tokens[b])];
      Reachable(healed, rest, tokens) && HealedAll(healed, rest, tokens) == HealedAll(buckets, sd, tokens)
  {
    assert sd.queue == [sd.queue[0]] + sd.queue[1..];
  }

  /** The work at hand has written through to its whole queue. */
  function ThroughAll(s: State, id: nat, tokens: map<nat, nat>): State
    requires id in s.tasks && IsSeeding(s.tasks[id]) && Reachable(s.buckets, SeedingOf(s.tasks[id]), tokens)
  {
    var sd := SeedingOf(s.tasks[id]);
    SetTask(s.(buckets := HealedAll(s.buckets, sd, tokens)), id, WithSeeding(s.tasks[id], sd.(queue := [])))
  }

  /** A write-through or a re-seed goes through its whole queue: every bucket in it that lacks
      the pair gets it, under its own token, and no other bucket changes. */
  lemma {:induction false} UndisturbedSeeds(s: State, id: nat, tokens: map<nat, nat>) returns (steps: seq<Step>)
    requires id in s.tasks && IsSeeding(s.tasks[id]) && SeedingOf(s.tasks[id]).held.Idle?
    requires Reachable(s.buckets, SeedingOf(s.tasks[id]), tokens)
    ensures Does(s, steps, ThroughAll(s, id, tokens))
    decreases |SeedingOf(s.tasks[id]).queue|
  {
    var t := s.tasks[id];
    var sd := SeedingOf(t);
    if sd.queue == [] {
      steps := [];
      NoSteps(s);
      NothingToSeed(s, id, tokens);
    } else {
      var s1 := SeedsFirst(s, id, tokens[sd.queue[0]]);
      var first := if Lacks(s.buckets[sd.queue[0]], sd.epoch) then
        [SeedRead(id), SeedWrite(id, tokens[sd.queue[0]], tokens[sd.queue[0]])] else [SeedRead(id)];
      UndisturbedSeed(s, id, tokens[sd.queue[0]]);
      HealsFirst(s.buckets, sd, tokens);
      SeedsOn(s, id, tokens);
      var rest := UndisturbedSeeds(s1, id, tokens);
      steps := first + rest;
      Chain(s, first, s1, rest, ThroughAll(s, id, tokens));
    }
  }

  lemma NothingToSeed(s: State, id: nat, tokens: map<nat, nat>)
    requires id in s.tasks && IsSeeding(s.tasks[id]) && SeedingOf(s.tasks[id]).queue == []
    requires Reachable(s.buckets, SeedingOf(s.tasks[id]), tokens)
    ensures ThroughAll(s, id, tokens) == s
  {
    assert HealedAll(s.buckets, SeedingOf(s.tasks[id]), tokens) == s.buckets;
    assert ThroughAll(s, id, tokens).tasks == s.tasks;
  }

  /** The state once the first bucket of the queue is done. */
  function SeedsFirst(s: State, id: nat, token: nat): State
    requires SeedTask(s, id)
  {
    var sd := SeedingOf(s.tasks[id]);
    var b := sd.queue[0];
    SetTask(s.(buckets := s.buckets[b := Healed(s.buckets[b], sd.names, sd.epoch, token)]), id, Advanced(s.tasks[id]))
  }

  lemma SeedsOn(s: State, id: nat, tokens: map<nat, nat>)
    requires SeedTask(s, id) && SeedingOf(s.tasks[id]).held.Idle?
    requires Reachable(s.buckets, SeedingOf(s.tasks[id]), tokens)
    ensures var sd := SeedingOf(s.tasks[id]); var s1 := SeedsFirst(s, id, tokens[sd.queue[0]]);
      && Reachable(s1.buckets, SeedingOf(s1.tasks[id]), tokens)
      && ThroughAll(s1, id, tokens) == ThroughAll(s, id, tokens)
      && (!Lacks(s.buckets[sd.queue[0]], sd.epoch) ==> s1 == SetTask(s, id, Advanced(s.tasks[id])))
  {
    var t := s.tasks[id];
    var sd := SeedingOf(t);
    var s1 := SeedsFirst(s, id, tokens[sd.queue[0]]);
    HealsFirst(s.buckets, sd, tokens);
    assert SeedingOf(s1.tasks[id]) == sd.(queue := sd.queue[1..]);
    assert ThroughAll(s1, id, tokens).tasks == ThroughAll(s, id, tokens).tasks;
  }

  lemma EditLands(s: State, c: Call, token: nat, peers: seq<nat>, blocked: bool, next: set<string>, epoch: nat)
    requires ReadyToEdit(s, c) && EditWrites(s, c) && NewToken(s.buckets[c.bucket], token)
    requires epoch == Max(EpochOn(s.buckets[c.bucket]), s.slots[c.node].epoch) + 1 <= U64_MAX
    requires var have := Newer(s.buckets[c.bucket], s.slots[c.node]);
             blocked == Asked(c.edit, have, s.status) && next == Edited(c.edit, have, blocked)
    ensures Does(s, EditSteps(c) + LandSteps(c.id, token, peers), Landing(s, c, next, blocked, epoch, token, peers))
  {
    var b := s.buckets[c.bucket];
    EditReads(s, c);
    DecidesAsked(c.edit, ReadView(b, c.edit).value, Newer(b, s.slots[c.node]), s.status);
    Lands(s, c, ReadView(b, c.edit).value, next, blocked, token, peers);
    EditContinues(s, c, LandSteps(c.id, token, peers), Landing(s, c, next, blocked, epoch, token, peers));
  }

  /** The peers are other buckets, each with a new token. */
  predicate PeersOf(s: State, c: Call, peers: seq<nat>, tokens: map<nat, nat>) {
    forall b :: b in peers ==> b in s.buckets && b != c.bucket && b in tokens && NewToken(s.buckets[b], tokens[b])
  }

  lemma PeersReachable(s: State, c: Call, token: nat, peers: seq<nat>, tokens: map<nat, nat>, blocked: bool,
                       next: set<string>, epoch: nat)
    requires Placed(s, c) && PeersOf(s, c, peers, tokens)
    ensures Reachable(Written(s, c, next, blocked, epoch, token).buckets, Seeding(next, epoch, peers, Idle), tokens)
  {
  }

  /** A single-name publish that writes, with peers: besides the bucket and the node, as
      without them, every peer that lacks the new pair gets it. */
  lemma UndisturbedWriteThrough(s: State, c: Call, token: nat, peers: seq<nat>, tokens: map<nat, nat>)
    returns (steps: seq<Step>)
    requires ReadyToEdit(s, c) && EditWrites(s, c) && NewToken(s.buckets[c.bucket], token)
    requires PeersOf(s, c, peers, tokens)
    requires Max(EpochOn(s.buckets[c.bucket]), s.slots[c.node].epoch) < U64_MAX
    ensures var have := Newer(s.buckets[c.bucket], s.slots[c.node]);
      var blocked := Asked(c.edit, have, s.status);
      var sd := Seeding(Edited(c.edit, have, blocked), Max(EpochOn(s.buckets[c.bucket]), s.slots[c.node].epoch) + 1,
                        peers, Idle);
      var written := Written(s, c, sd.names, blocked, sd.epoch, token);
      && Reachable(written.buckets, sd, tokens)
      && Does(s, steps, Done(written.(buckets := HealedAll(written.buckets, sd, tokens)), c,
                             Slot(sd.names, sd.epoch, None, false), sd.epoch, blocked))
  {
    var have := Newer(s.buckets[c.bucket], s.slots[c.node]);
    var blocked := Asked(c.edit, have, s.status);
    var next := Edited(c.edit, have, blocked);
    var epoch := Max(EpochOn(s.buckets[c.bucket]), s.slots[c.node].epoch) + 1;
    var sd := Seeding(next, epoch, peers, Idle);
    var written := Written(s, c, next, blocked, epoch, token);
    var begin := EditSteps(c) + LandSteps(c.id, token, peers);
    EditLands(s, c, token, peers, blocked, next, epoch);
    PeersReachable(s, c, token, peers, tokens, blocked, next, epoch);
    var rest := SeedsAndFinishes(written, c, sd, blocked, tokens);
    steps := begin + rest;
    Chain(s, begin, At(written, c, Phase.Through(sd, blocked)), rest,
          Done(written.(buckets := HealedAll(written.buckets, sd, tokens)), c, Slot(next, epoch, None, false), epoch,
               blocked));
  }

  lemma SeedsAndFinishes(s: State, c: Call, sd: Seeding, verdict: bool, tokens: map<nat, nat>)
    returns (steps: seq<Step>)
    requires Placed(s, c) && sd.held.Idle? && Reachable(s.buckets, sd, tokens) && sd.epoch > s.slots[c.node].epoch
    ensures Does(At(s, c, Phase.Through(sd, verdict)), steps,
              Done(s.(buckets := HealedAll(s.buckets, sd, tokens)), c, Slot(sd.names, sd.epoch, None, false), sd.epoch,
                   verdict))
  {
    var through := At(s, c, Phase.Through(sd, verdict));
    var healed := s.(buckets := HealedAll(s.buckets, sd, tokens));
    var seeds := UndisturbedSeeds(through, c.id, tokens);
    var all := At(healed, c, Phase.Through(Seeding(sd.names, sd.epoch, [], Idle), verdict));
    assert ThroughAll(through, c.id, tokens).tasks == all.tasks;
    FinishMoves(healed, c, sd.names, verdict, sd.epoch);
    steps := seeds + [Finish(c.id)];
    Next(through, seeds, all, Finish(c.id), Done(healed, c, Slot(sd.names, sd.epoch, None, false), sd.epoch, verdict));
  }
}
