/** Runs in which the quarantine protocol does less than its comments promise. */
module QuarantineExamples {
  import opened Prelude
  import opened QuarantineSlot
  import opened QuarantineProtocol
  import opened QuarantineInvariant
  import opened QuarantineTheorems
  import opened QuarantineUndisturbed

  // ----- Building runs -----------------------------------------------------------------------

  /** Publishes and sweep walks work against the buckets in `sels`. */
  predicate On(step: Step, sels: set<nat>) {
    step.BeginPublish? || step.BeginWalk? ==> step.bucket in sels
  }

  ghost predicate AllOn(steps: seq<Step>, sels: set<nat>) {
    forall i :: 0 <= i < |steps| ==> On(steps[i], sels)
  }

  /** Some run from `start` that publishes on `sels` ends in `s`. */
  ghost predicate Leads(start: State, sels: set<nat>, s: State) {
    exists steps :: Does(start, steps, s) && AllOn(steps, sels)
  }

  lemma Begin(start: State, sels: set<nat>)
    ensures Leads(start, sels, start)
  {
    assert DoesBy([start], start, [], start);
    assert Does(start, [], start) && AllOn([], sels);
  }

  lemma Go(start: State, sels: set<nat>, s: State, steps: seq<Step>, s': State)
    requires Leads(start, sels, s) && Does(s, steps, s') && AllOn(steps, sels)
    ensures Leads(start, sels, s')
  {
    var before :| Does(start, before, s) && AllOn(before, sels);
    Chain(start, before, s, steps, s');
    assert AllOn(before + steps, sels);
  }

  lemma GoOne(start: State, sels: set<nat>, s: State, step: Step, s': State)
    requires Leads(start, sels, s) && Moves(s, step, s') && On(step, sels)
    ensures Leads(start, sels, s')
  {
    First(s, step, s');
    Go(start, sels, s, [step], s');
  }

  lemma RunOf(start: State, sels: set<nat>, s: State) returns (states: seq<State>, steps: seq<Step>)
    requires Leads(start, sels, s)
    ensures DoesBy(states, start, steps, s) && AllOn(steps, sels)
  {
    steps :| Does(start, steps, s) && AllOn(steps, sels);
    states :| DoesBy(states, start, steps, s);
  }

  /** A publish call of one name, about to begin. */
  function Freeze(s: State, id: nat, node: nat, bucket: nat, name: string, blocked: bool): Call {
    Call(id, node, bucket, One(name, blocked), |s.log|)
  }

  /** The state a whole undisturbed publish of `next` at `epoch` leaves. */
  function Published(s: State, c: Call, next: set<string>, epoch: nat, token: nat): State
    requires c.edit.One? && c.bucket in s.buckets
  {
    Done(Written(s, c, next, c.edit.blocked, epoch, token), c, Slot(next, epoch, None, false), epoch, c.edit.blocked)
  }

  lemma Publishes(start: State, sels: set<nat>, s: State, c: Call, next: set<string>, epoch: nat, token: nat)
    requires Leads(start, sels, s) && ReadyToEdit(s, c) && c.bucket in sels && c.edit.One?
    requires NewToken(s.buckets[c.bucket], token) && epoch < U64_MAX
    requires var b, slot := s.buckets[c.bucket], s.slots[c.node];
      && slot.epoch <= EpochOn(b) && epoch == EpochOn(b) + 1
      && next == Edited(c.edit, SetOn(b), c.edit.blocked) != SetOn(b)
    ensures Leads(start, sels, Published(s, c, next, epoch, token))
  {
    UndisturbedWrite(s, c, token);
    Go(start, sels, s, EditSteps(c) + WriteSteps(c.id, token), Published(s, c, next, epoch, token));
  }

  const EMPTY := Bucket(None, map[], map[])

  /** Nothing published: fresh nodes 0 and 1, and the given buckets. */
  function Start(buckets: map<nat, Bucket>): State {
    State(map[0 := FRESH, 1 := FRESH], buckets, map[], map[], [])
  }

  // ----- One epoch, two sets -------------------------------------------------------------------

  /** Two nodes, each publishing one name to its own bucket, spend epoch one on different
      sets. */
  lemma ForkedFreezes() returns (s: State)
    ensures Leads(Start(map[0 := EMPTY, 1 := EMPTY]), {0, 1}, s) && 2 !in s.tasks && |s.log| == 2
    ensures s.slots == map[0 := Slot({"a"}, 1, None, false), 1 := Slot({"b"}, 1, None, false)]
    ensures s.buckets == map[0 := Put(EMPTY, Readable({"a"}, 1), 0, 0), 1 := Put(EMPTY, Readable({"b"}, 1), 0, 0)]
  {
    var start := Start(map[0 := EMPTY, 1 := EMPTY]);
    Begin(start, {0, 1});
    var first := Freeze(start, 0, 0, 0, "a", true);
    Publishes(start, {0, 1}, start, first, {"a"}, 1, 0);
    var s1 := Published(start, first, {"a"}, 1, 0);
    var second := Freeze(s1, 1, 1, 1, "b", true);
    Publishes(start, {0, 1}, s1, second, {"b"}, 1, 0);
    s := Published(s1, second, {"b"}, 1, 0);
  }

  /** With two buckets taking publishes one epoch no longer names one set. */
  lemma TwoSelectedBucketsFork() returns (states: seq<State>, steps: seq<Step>)
    ensures IsRun(states, steps) && Initial(states[0])
    ensures var s := states[|steps|];
            && 0 in s.buckets && 1 in s.buckets && EpochOn(s.buckets[0]) == EpochOn(s.buckets[1]) == 1
            && SetOn(s.buckets[0]) != SetOn(s.buckets[1])
  {
    var s := ForkedFreezes();
    states, steps := RunOf(Start(map[0 := EMPTY, 1 := EMPTY]), {0, 1}, s);
    assert "a" in SetOn(s.buckets[0]) && "a" !in SetOn(s.buckets[1]);
  }

  /** The first node then freezes "c" on the second bucket, undisturbed: that bucket is at the
      node's own epoch, so it is not judged behind, and it ends at epoch two without "a",
      which the node held as published all along. */
  lemma EditMissesForkedFreeze() returns (states: seq<State>, steps: seq<Step>)
    ensures IsRun(states, steps) && Initial(states[0])
    ensures exists i :: 0 <= i < |states| && 0 in states[i].slots && states[i].slots[0] == Slot({"a"}, 1, None, false)
    ensures var s := states[|steps|];
      && 0 in s.buckets && SetOn(s.buckets[0]) == {"a"} && EpochOn(s.buckets[0]) == 1
      && 1 in s.buckets && SetOn(s.buckets[1]) == {"b", "c"} && EpochOn(s.buckets[1]) == 2
      && 0 in s.slots && s.slots[0].names == {"b", "c"} && s.slots[0].epoch == 2
      && |s.log| == 3 && s.log[2].edit == One("c", true)
  {
    var start, sels := Start(map[0 := EMPTY, 1 := EMPTY]), {0, 1};
    var s := ForkedFreezes();
    var c := Freeze(s, 2, 0, 1, "c", true);
    var first, before := RunOf(start, sels, s);
    FreezesOnto(s, c);
    var s' := Published(s, c, {"b", "c"}, 2, 1);
    var rest := EditSteps(c) + WriteSteps(2, 1);
    var second :| DoesBy(second, s, rest, s');
    RunsJoin(first, before, second, rest);
    states, steps := first + second[1..], before + rest;
    assert states[|before|] == s;
  }

  lemma FreezesOnto(s: State, c: Call)
    requires ReadyToEdit(s, c) && c.edit == One("c", true) && NewToken(s.buckets[c.bucket], 1)
    requires s.slots[c.node].epoch == 1 && s.buckets[c.bucket].current == Some(Object(Readable({"b"}, 1), 0, 0))
    ensures Does(s, EditSteps(c) + WriteSteps(c.id, 1), Published(s, c, {"b", "c"}, 2, 1))
  {
    UndisturbedWrite(s, c, 1);
    assert Edited(c.edit, {"b"}, true) == {"b", "c"};
  }

  // ----- A sweep that repairs nothing ----------------------------------------------------------

  /** A sweep of an empty fleet over an unreadable body returns Ok and repairs nothing. */
  lemma EmptySweepLeavesUnreadable() returns (states: seq<State>, steps: seq<Step>)
    ensures IsRun(states, steps) && Initial(states[0]) && 0 in states[0].buckets
    ensures var s := states[|steps|];
            && 0 in s.buckets && s.buckets[0] == states[0].buckets[0] && s.buckets[0].current.Some?
            && s.buckets[0].current.value.body.Unreadable?
            && 0 in s.tasks && s.tasks[0].Publish? && s.tasks[0].phase.Returned? && s.tasks[0].phase.ok
  {
    var start := Start(map[0 := Put(EMPTY, Unreadable(7), 0, 0)]);
    var c := Call(0, 0, 0, Sweep({}, {}, 0), 0);
    UndisturbedSweepConfirm(start, c);
    steps := WalkSteps(c) + (AttemptSteps(0) + [Confirm(0)]);
    states :| DoesBy(states, start, steps, Done(start, c, Offered(FRESH, {}, 0, None), 0, true));
  }

  // ----- A sweep that undoes a newer freeze ------------------------------------------------------

  /** All on one bucket: `n` is frozen, a walk begins, `n` is thawed and frozen again, and
      the walk, which found `n` free, lands. It compares with its base only, where `n` was
      frozen as it is now, and undoes the newer freeze. */
  lemma SweepUndoesNewerFreeze() returns (states: seq<State>, steps: seq<Step>)
    ensures FleetRun(states, steps, 0)
    ensures var s := states[|steps|];
      && |s.log| == 4 && s.log[2].edit == One("n", true)
      && s.log[3].edit.Sweep? && s.log[3].edit.baseEpoch == 1
      && 0 in s.buckets && "n" !in SetOn(s.buckets[0])
  {
    var start := Start(map[0 := EMPTY]);
    var walker := Call(9, 0, 0, Sweep({}, {"n"}, 1), 3);
    var s := FreezeThawFreeze();
    assert s == SetTask(s, 9, Walk(0, 0, {"n"}, 1));
    WalkEnds(s, walker);
    GoOne(start, {0}, s, EndWalk(9, {}), At(s, walker, Ready));
    var view := View({"n"}, 3, Some(3), true);
    assert SweepNext(view, walker.edit) == {};
    Writes(s, walker, view, {}, true, 4);
    var s' := Done(Written(s, walker, {}, true, 4, 4), walker, Slot({}, 4, None, false), 4, true);
    Go(start, {0}, At(s, walker, Ready), AttemptSteps(9) + WriteSteps(9, 4), s');
    states, steps := RunOf(start, {0}, s');
    assert forall i :: 0 <= i < |steps| ==> PublishesOn(steps[i], 0);
  }

  /** The first part of that run: a freeze, the walk's begin, a thaw and a freeze. */
  lemma FreezeThawFreeze() returns (s: State)
    ensures Leads(Start(map[0 := EMPTY]), {0}, s) && s.status == map[]
    ensures |s.log| == 3 && s.log[2].edit == One("n", true)
    ensures s.slots == map[0 := Slot({"n"}, 3, None, false), 1 := FRESH]
    ensures 9 in s.tasks && s.tasks[9] == Walk(0, 0, {"n"}, 1) && s.buckets.Keys == {0}
    ensures s.buckets[0].current == Some(Object(Readable({"n"}, 3), 3, 3)) && NewToken(s.buckets[0], 4)
  {
    var start := Start(map[0 := EMPTY]);
    var s2 := FreezeAndWalk();
    var thaw := Freeze(s2, 2, 0, 0, "n", false);
    Publishes(start, {0}, s2, thaw, {}, 2, 2);
    var s3 := Published(s2, thaw, {}, 2, 2);
    var freeze := Freeze(s3, 3, 0, 0, "n", true);
    Publishes(start, {0}, s3, freeze, {"n"}, 3, 3);
    s := Published(s3, freeze, {"n"}, 3, 3);
  }

  lemma FreezeAndWalk() returns (s: State)
    ensures Leads(Start(map[0 := EMPTY]), {0}, s) && |s.log| == 1 && s.status == map[] && s.tasks.Keys == {1, 9}
    ensures s.slots == map[0 := Slot({"n"}, 1, None, false), 1 := FRESH]
    ensures s.tasks[9] == Walk(0, 0, {"n"}, 1) && s.buckets == map[0 := Put(EMPTY, Readable({"n"}, 1), 1, 1)]
  {
    var start := Start(map[0 := EMPTY]);
    Begin(start, {0});
    var c := Freeze(start, 1, 0, 0, "n", true);
    Publishes(start, {0}, start, c, {"n"}, 1, 1);
    var s1 := Published(start, c, {"n"}, 1, 1);
    s := SetTask(s1, 9, Walk(0, 0, {"n"}, 1));
    GoOne(start, {0}, s1, BeginWalk(9, 0, 0), s);
  }

  // ----- An edit that drops what its node just learned ---------------------------------------------

  /** One node, two calls. The first judges the empty bucket 1 before the node knows of
      anything; the second freezes "b" on bucket 0 and the node adopts epoch one. The first
      is then stamped above that epoch, but was built on the empty set: bucket 1 and the
      node end at epoch two without "b". */
  lemma EditDropsWhatItsNodeLearned() returns (states: seq<State>, steps: seq<Step>)
    ensures IsRun(states, steps) && Initial(states[0])
    ensures var s := states[|steps|];
      && 0 in s.buckets && SetOn(s.buckets[0]) == {"b"} && EpochOn(s.buckets[0]) == 1
      && 1 in s.buckets && SetOn(s.buckets[1]) == {"a"} && EpochOn(s.buckets[1]) == 2
      && 0 in s.slots && s.slots[0].names == {"a"} && s.slots[0].epoch == 2
  {
    var start, sels := Start(map[0 := EMPTY, 1 := EMPTY]), {0, 1};
    var first := Call(0, 0, 1, One("a", true), 0);
    var s := LearnsMeanwhile(first);
    var view := View({}, 0, None, false);
    var decided := Derived(view, false, 0, {}, 0, {"a"}, true, |s.log|);
    assert With({}, "a", true) == {"a"};
    AttemptMoves(s, first, Based(view, false, 0, {}, 0), Decide(0));
    GoOne(start, sels, At(s, first, Based(view, false, 0, {}, 0)), Decide(0), At(s, first, decided));
    var stamped := Stamped(view, false, 0, {}, 0, {"a"}, true, |s.log|, 1, 2);
    AttemptMoves(s, first, decided, Stamp(0));
    GoOne(start, sels, At(s, first, decided), Stamp(0), At(s, first, stamped));
    var s' := LandsAndFinishes(start, sels, s, first, stamped);
    states, steps := RunOf(start, sels, s');
  }

  lemma LandsAndFinishes(start: State, sels: set<nat>, s: State, c: Call, p: Phase) returns (s': State)
    requires Leads(start, sels, At(s, c, p)) && Placed(s, c) && p.Stamped? && p.looked == |s.log|
    requires Matches(s.buckets[c.bucket], p.view.token) && NewToken(s.buckets[c.bucket], 0)
    ensures Leads(start, sels, s')
    ensures s' == Done(Written(s, c, p.next, p.verdict, p.epoch, 0), c,
                       Offered(s.slots[c.node], p.next, p.epoch, None), p.epoch, p.verdict)
  {
    LandMoves(s, c, p, 0, []);
    GoOne(start, sels, At(s, c, p), CasLands(c.id, 0, 0, Wrote, []),
          Landing(s, c, p.next, p.verdict, p.epoch, 0, []));
    FinishMoves(Written(s, c, p.next, p.verdict, p.epoch, 0), c, p.next, p.verdict, p.epoch);
    s' := Done(Written(s, c, p.next, p.verdict, p.epoch, 0), c, Offered(s.slots[c.node], p.next, p.epoch, None),
               p.epoch, p.verdict);
    GoOne(start, sels, Landing(s, c, p.next, p.verdict, p.epoch, 0, []), Finish(c.id), s');
  }

  /** The first part of that run: the first call has taken its set, and the second is done. */
  lemma LearnsMeanwhile(first: Call) returns (s: State)
    requires first == Call(0, 0, 1, One("a", true), 0)
    ensures Leads(Start(map[0 := EMPTY, 1 := EMPTY]), {0, 1},
                  At(s, first, Based(View({}, 0, None, false), false, 0, {}, 0)))
    ensures s.slots == map[0 := Slot({"b"}, 1, None, false), 1 := FRESH] && s.status == map[]
    ensures s.buckets == map[0 := Put(EMPTY, Readable({"b"}, 1), 0, 0), 1 := EMPTY]
  {
    var start, sels := Start(map[0 := EMPTY, 1 := EMPTY]), {0, 1};
    var s1 := TakesItsSet(first);
    var second := Freeze(s1, 1, 0, 0, "b", true);
    Publishes(start, sels, s1, second, {"b"}, 1, 0);
    s := Published(s1, second, {"b"}, 1, 0);
    assert At(s, first, Based(View({}, 0, None, false), false, 0, {}, 0)) == s;
  }

  lemma TakesItsSet(first: Call) returns (s: State)
    requires first == Call(0, 0, 1, One("a", true), 0)
    ensures s == At(Start(map[0 := EMPTY, 1 := EMPTY]), first, Based(View({}, 0, None, false), false, 0, {}, 0))
    ensures Leads(Start(map[0 := EMPTY, 1 := EMPTY]), {0, 1}, s)
  {
    var start, sels := Start(map[0 := EMPTY, 1 := EMPTY]), {0, 1};
    var view := View({}, 0, None, false);
    Begin(start, sels);
    PublishBegins(start, first);
    GoOne(start, sels, start, BeginPublish(0, 0, 1, first.edit), At(start, first, Ready));
    AttemptMoves(start, first, Ready, Fetch(0));
    GoOne(start, sels, At(start, first, Ready), Fetch(0), At(start, first, Fetched(view)));
    AttemptMoves(start, first, Fetched(view), Judge(0));
    GoOne(start, sels, At(start, first, Fetched(view)), Judge(0), At(start, first, Judged(view, false, 0)));
    AttemptMoves(start, first, Judged(view, false, 0), Rebase(0));
    s := At(start, first, Based(view, false, 0, {}, 0));
    GoOne(start, sels, At(start, first, Judged(view, false, 0)), Rebase(0), s);
  }
}
