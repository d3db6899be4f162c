/** What every step of the quarantine protocol keeps, when all publishes and sweep
    walks work against one selected bucket. */
module QuarantineInvariant {
  import opened Prelude
  import opened QuarantineSlot
  import opened QuarantineProtocol

  // ----- The published history ---------------------------------------------------

  /** The set stored on the selected bucket once `k` publishes have landed. */
  function Stored(log: seq<Entry>, k: nat): set<string>
    requires k <= |log|
  {
    if k == 0 then {} else log[k - 1].names
  }

  /** `(names, epoch)` is a published pair; the empty set at epoch zero counts as one. */
  predicate IsPublished(log: seq<Entry>, names: set<string>, epoch: nat) {
    epoch <= |log| && names == Stored(log, epoch)
  }

  /** What an edit makes of the stored set `prev`. For a sweep, name by name: the
      stored membership where it differs from the base, the derived one elsewhere. */
  function Effect(edit: Edit, verdict: bool, prev: set<string>): set<string> {
    match edit
    case One(name, _) => With(prev, name, verdict)
    case Derive(name, _) => With(prev, name, verdict)
    case Sweep(derived, base, _) =>
      set n | n in derived + prev && (if (n in prev) != (n in base) then n in prev else n in derived)
  }

  /** The k-th publish carries epoch k + 1, applies its edit to the set it replaced,
      changes that set, and decided its verdict with that very set stored; a sweep's base
      is the set stored at its base epoch. */
  ghost predicate LogOk(log: seq<Entry>) {
    forall k :: 0 <= k < |log| ==> EntryAt(log, k)
  }

  predicate EntryAt(log: seq<Entry>, k: nat)
    requires k < |log|
  {
    EntryOk(log[k], k, Stored(log, k)) && BaseOk(log, log[k].edit, k)
  }

  /** The set a sweep began from was the stored one, no later than after `k` publishes. */
  predicate BaseOk(log: seq<Entry>, edit: Edit, k: nat) {
    edit.Sweep? ==> edit.baseEpoch <= k && IsPublished(log, edit.base, edit.baseEpoch)
  }

  predicate EntryOk(e: Entry, k: nat, prev: set<string>) {
    && e.epoch == k + 1 && e.looked == k
    && e.names == Effect(e.edit, e.verdict, prev) != prev
    && (e.edit.One? ==> e.verdict == e.edit.blocked)
  }

  // ----- Buckets -------------------------------------------------------------------

  predicate BodyOk(log: seq<Entry>, body: Body) {
    body.Readable? ==> body.epoch > 0 && IsPublished(log, body.names, body.epoch)
  }

  ghost predicate BucketOk(log: seq<Entry>, b: Bucket) {
    && (forall t :: t in b.casNames ==> BodyOk(log, b.casNames[t]))
    && (forall t :: t in b.listNames ==> BodyOk(log, b.listNames[t]))
    && (b.current.Some? ==>
          && b.current.value.cas in b.casNames && b.casNames[b.current.value.cas] == b.current.value.body
          && b.current.value.listed in b.listNames && b.listNames[b.current.value.listed] == b.current.value.body)
  }

  /** The selected bucket holds exactly the last publish. */
  predicate SelectedOk(log: seq<Entry>, b: Bucket) {
    if log == [] then b.current.Some? ==> b.current.value.body.Unreadable?
    else b.current.Some? && b.current.value.body == Readable(Stored(log, |log|), |log|)
  }

  // ----- Nodes and calls -----------------------------------------------------------

  predicate SlotOk(log: seq<Entry>, slot: Slot) {
    slot.epoch <= |log| && (!slot.unpublished ==> slot.names == Stored(log, slot.epoch))
  }

  /** A view read off the selected bucket during an attempt that began after `floor`
      publishes, and still the stored pair while no other publish lands; its token, if any, names the very body read. */
  predicate ViewOk(log: seq<Entry>, b: Bucket, floor: nat, view: View) {
    && IsPublished(log, view.names, view.epoch) && floor <= view.epoch
    && (view.isReal <==> view.epoch > 0)
    && (view.token.None? ==> !view.isReal)
    && (view.token.Some? ==>
          && view.token.value in b.casNames
          && (if view.isReal then b.casNames[view.token.value] == Readable(view.names, view.epoch)
              else b.casNames[view.token.value].Unreadable?))
    && (view.epoch == |log| ==> Matches(b, view.token))
  }

  /** A seed carries a published pair, and a token it holds names an older body. */
  predicate SeedOk(log: seq<Entry>, buckets: map<nat, Bucket>, sel: nat, sd: Seeding) {
    && sd.epoch > 0 && IsPublished(log, sd.names, sd.epoch)
    && (sd.held.Holding? ==>
          && sd.queue != [] && sd.queue[0] in buckets
          && (match sd.held.token
              case None => sd.queue[0] != sel
              case Some(t) =>
                && t in buckets[sd.queue[0]].casNames
                && var body := buckets[sd.queue[0]].casNames[t];
                   && (body.Readable? ==> body.epoch < sd.epoch)
                   && (sd.queue[0] == sel ==> body.Readable?)))
  }

  /** The edit's target name has the decided membership in the k-th stored set. */
  predicate Landed(log: seq<Entry>, edit: Edit, verdict: bool, k: nat) {
    && k <= |log|
    && (!edit.Sweep? ==> ((edit.name in Stored(log, k)) == verdict))
    && (edit.One? ==> verdict == edit.blocked)
  }

  predicate DecidedOk(log: seq<Entry>, edit: Edit, view: View, behind: bool, next: set<string>, verdict: bool,
                      looked: nat) {
    && view.epoch <= looked <= |log|
    && (behind ==> view.epoch < |log|)
    && (!behind ==> next == Effect(edit, verdict, view.names))
    && (edit.One? ==> verdict == edit.blocked)
  }

  predicate PhaseOk(log: seq<Entry>, buckets: map<nat, Bucket>, sel: nat, edit: Edit, floor: nat, p: Phase)
    requires sel in buckets
  {
    match p
    case Ready => true
    case Fetched(view) => ViewOk(log, buckets[sel], floor, view)
    case Judged(view, behind, _) =>
      ViewOk(log, buckets[sel], floor, view) && (behind ==> view.epoch < |log| && !edit.Sweep?)
    case Based(view, behind, _, have, from) =>
      && ViewOk(log, buckets[sel], floor, view) && (behind ==> view.epoch < |log| && !edit.Sweep?)
      && (!behind ==> have == view.names && from == view.epoch)
    case Derived(view, behind, _, have, from, next, verdict, looked) =>
      && ViewOk(log, buckets[sel], floor, view)
      && DecidedOk(log, edit, view, behind, next, verdict, looked)
      && (!behind ==> have == view.names && from == view.epoch)
    case Stamped(view, behind, _, have, from, next, verdict, looked, live, epoch) =>
      && ViewOk(log, buckets[sel], floor, view)
      && DecidedOk(log, edit, view, behind, next, verdict, looked)
      && (!behind ==> next != have == view.names && from == view.epoch)
      && view.epoch < epoch <= |log| + 1 && live <= |log|
    case Through(sd, verdict) =>
      SeedOk(log, buckets, sel, sd) && floor <= sd.epoch && Landed(log, edit, verdict, sd.epoch)
    case Returned(ok, at, verdict) => ok ==> floor <= at && Landed(log, edit, verdict, at)
  }

  /** How many publishes have landed, at least, by the time the call's present attempt
      begins: those before the call, and one for each attempt it lost. */
  function FloorOf(t: Task): nat
    requires t.Publish?
  {
    t.began + (if t.attempts <= CAS_ATTEMPTS then CAS_ATTEMPTS - t.attempts else 0)
  }

  predicate TaskOk(log: seq<Entry>, buckets: map<nat, Bucket>, sel: nat, t: Task)
    requires sel in buckets
  {
    match t
    case Walk(_, bucket, base, baseEpoch) => bucket == sel && IsPublished(log, base, baseEpoch)
    case Publish(_, bucket, edit, began, attempts, phase, _) =>
      && bucket == sel && attempts <= CAS_ATTEMPTS && FloorOf(t) <= |log|
      && (edit.Sweep? ==> edit.baseEpoch <= began && IsPublished(log, edit.base, edit.baseEpoch))
      && PhaseOk(log, buckets, sel, edit, FloorOf(t), phase)
    case Poll(_, _, _, floor, progress) =>
      && floor <= |log|
      && (progress.Got? ==> progress.epoch > 0 && IsPublished(log, progress.names, progress.epoch))
    case Reseed(_, sd) => SeedOk(log, buckets, sel, sd)
  }

  // ----- The invariant ---------------------------------------------------------------

  ghost predicate Inv(s: State, sel: nat) {
    && sel in s.buckets
    && LogOk(s.log)
    && SelectedOk(s.log, s.buckets[sel])
    && (forall b :: b in s.buckets ==> BucketOk(s.log, s.buckets[b]))
    && (forall n :: n in s.slots ==> SlotOk(s.log, s.slots[n]))
    && (forall id :: id in s.tasks ==> TaskOk(s.log, s.buckets, sel, s.tasks[id]))
  }

  // ----- Facts survive later writes ----------------------------------------------------

  /** Later storage: the log has grown at the end, no token changed its meaning, and the
      selected bucket moves only as the log does. */
  ghost predicate Grows(log: seq<Entry>, buckets: map<nat, Bucket>, log': seq<Entry>, buckets': map<nat, Bucket>,
                        sel: nat)
  {
    && log <= log'
    && (sel in buckets && |log'| == |log| ==> sel in buckets' && buckets'[sel].current == buckets[sel].current)
    && (forall b :: b in buckets ==>
          && b in buckets'
          && (forall t :: t in buckets[b].casNames ==>
                t in buckets'[b].casNames && buckets'[b].casNames[t] == buckets[b].casNames[t])
          && (forall t :: t in buckets[b].listNames ==>
                t in buckets'[b].listNames && buckets'[b].listNames[t] == buckets[b].listNames[t]))
  }

  lemma StoredGrows(log: seq<Entry>, log': seq<Entry>, k: nat)
    requires log <= log' && k <= |log|
    ensures Stored(log', k) == Stored(log, k)
  {
  }

  lemma SeedGrows(log: seq<Entry>, buckets: map<nat, Bucket>, log': seq<Entry>, buckets': map<nat, Bucket>, sel: nat,
                  sd: Seeding)
    requires Grows(log, buckets, log', buckets', sel) && SeedOk(log, buckets, sel, sd)
    ensures SeedOk(log', buckets', sel, sd)
  {
    StoredGrows(log, log', sd.epoch);
  }

  lemma ViewGrows(log: seq<Entry>, buckets: map<nat, Bucket>, log': seq<Entry>, buckets': map<nat, Bucket>, sel: nat,
                  floor: nat, view: View)
    requires Grows(log, buckets, log', buckets', sel) && sel in buckets && ViewOk(log, buckets[sel], floor, view)
    ensures ViewOk(log', buckets'[sel], floor, view)
  {
    StoredGrows(log, log', view.epoch);
  }

  lemma PhaseGrows(log: seq<Entry>, buckets: map<nat, Bucket>, log': seq<Entry>, buckets': map<nat, Bucket>, sel: nat,
                   edit: Edit, floor: nat, p: Phase)
    requires Grows(log, buckets, log', buckets', sel) && sel in buckets && PhaseOk(log, buckets, sel, edit, floor, p)
    ensures PhaseOk(log', buckets', sel, edit, floor, p)
  {
    match p
    case Ready =>
    case Fetched(view) => ViewGrows(log, buckets, log', buckets', sel, floor, view);
    case Judged(view, _, _) => ViewGrows(log, buckets, log', buckets', sel, floor, view);
    case Based(view, _, _, _, _) => ViewGrows(log, buckets, log', buckets', sel, floor, view);
    case Derived(view, _, _, _, _, _, _, _) => ViewGrows(log, buckets, log', buckets', sel, floor, view);
    case Stamped(view, _, _, _, _, _, _, _, _, _) => ViewGrows(log, buckets, log', buckets', sel, floor, view);
    case Through(sd, _) =>
      SeedGrows(log, buckets, log', buckets', sel, sd);
      StoredGrows(log, log', sd.epoch);
    case Returned(ok, at, _) =>
      if ok { StoredGrows(log, log', at); }
  }

  lemma TaskGrows(log: seq<Entry>, buckets: map<nat, Bucket>, log': seq<Entry>, buckets': map<nat, Bucket>, sel: nat,
                  t: Task)
    requires Grows(log, buckets, log', buckets', sel) && sel in buckets && TaskOk(log, buckets, sel, t)
    ensures TaskOk(log', buckets', sel, t)
  {
    match t
    case Walk(_, _, _, baseEpoch) => StoredGrows(log, log', baseEpoch);
    case Publish(_, _, edit, _, _, phase, _) =>
      PhaseGrows(log, buckets, log', buckets', sel, edit, FloorOf(t), phase);
      if edit.Sweep? { StoredGrows(log, log', edit.baseEpoch); }
    case Poll(_, _, _, _, progress) =>
      if progress.Got? { StoredGrows(log, log', progress.epoch); }
    case Reseed(_, sd) => SeedGrows(log, buckets, log', buckets', sel, sd);
  }

  lemma BodyGrows(log: seq<Entry>, log': seq<Entry>, body: Body)
    requires log <= log' && BodyOk(log, body)
    ensures BodyOk(log', body)
  {
    if body.Readable? { StoredGrows(log, log', body.epoch); }
  }

  lemma BucketGrows(log: seq<Entry>, log': seq<Entry>, b: Bucket)
    requires log <= log' && BucketOk(log, b)
    ensures BucketOk(log', b)
  {
    forall t | t in b.casNames ensures BodyOk(log', b.casNames[t]) { BodyGrows(log, log', b.casNames[t]); }
    forall t | t in b.listNames ensures BodyOk(log', b.listNames[t]) { BodyGrows(log, log', b.listNames[t]); }
  }

  lemma SlotGrows(log: seq<Entry>, log': seq<Entry>, slot: Slot)
    requires log <= log' && SlotOk(log, slot)
    ensures SlotOk(log', slot)
  {
    StoredGrows(log, log', slot.epoch);
  }

  // ----- What each kind of change keeps ----------------------------------------------

  lemma SetTaskKeeps(s: State, sel: nat, id: nat, t: Task)
    requires Inv(s, sel) && TaskOk(s.log, s.buckets, sel, t)
    ensures Inv(SetTask(s, id, t), sel)
  {
  }

  lemma DropTaskKeeps(s: State, sel: nat, id: nat)
    requires Inv(s, sel)
    ensures Inv(DropTask(s, id), sel)
  {
  }

  lemma SetSlotKeeps(s: State, sel: nat, node: nat, slot: Slot)
    requires Inv(s, sel) && SlotOk(s.log, slot)
    ensures Inv(SetSlot(s, node, slot), sel)
  {
  }

  lemma WriteGrows(s: State, sel: nat, at: nat, body: Body, cas: nat, listed: nat, log': seq<Entry>)
    requires at in s.buckets && MayName(s.buckets[at], body, cas, listed) && s.log <= log'
    requires at == sel ==> |s.log| < |log'|
    ensures Grows(s.log, s.buckets, log', s.buckets[at := Put(s.buckets[at], body, cas, listed)], sel)
  {
  }

  lemma TasksGrow(s: State, sel: nat, log': seq<Entry>, buckets': map<nat, Bucket>)
    requires sel in s.buckets && Grows(s.log, s.buckets, log', buckets', sel)
    requires forall id :: id in s.tasks ==> TaskOk(s.log, s.buckets, sel, s.tasks[id])
    ensures sel in buckets' && forall id :: id in s.tasks ==> TaskOk(log', buckets', sel, s.tasks[id])
  {
    forall id | id in s.tasks ensures TaskOk(log', buckets', sel, s.tasks[id]) {
      TaskGrows(s.log, s.buckets, log', buckets', sel, s.tasks[id]);
    }
  }

  lemma SlotsGrow(s: State, log': seq<Entry>)
    requires s.log <= log' && forall n :: n in s.slots ==> SlotOk(s.log, s.slots[n])
    ensures forall n :: n in s.slots ==> SlotOk(log', s.slots[n])
  {
    forall n | n in s.slots ensures SlotOk(log', s.slots[n]) {
      SlotGrows(s.log, log', s.slots[n]);
    }
  }

  lemma PutKeepsBucket(log: seq<Entry>, log': seq<Entry>, b: Bucket, body: Body, cas: nat, listed: nat)
    requires BucketOk(log, b) && log <= log' && BodyOk(log', body) && MayName(b, body, cas, listed)
    ensures BucketOk(log', Put(b, body, cas, listed))
  {
    BucketGrows(log, log', b);
  }

  lemma BucketsOkAfterWrite(s: State, at: nat, body: Body, cas: nat, listed: nat, log': seq<Entry>)
    requires forall b :: b in s.buckets ==> BucketOk(s.log, s.buckets[b])
    requires at in s.buckets && MayName(s.buckets[at], body, cas, listed) && s.log <= log' && BodyOk(log', body)
    ensures var buckets' := s.buckets[at := Put(s.buckets[at], body, cas, listed)];
            forall b :: b in buckets' ==> BucketOk(log', buckets'[b])
  {
    forall b | b in s.buckets ensures BucketOk(log', s.buckets[b]) {
      BucketGrows(s.log, log', s.buckets[b]);
    }
    PutKeepsBucket(s.log, log', s.buckets[at], body, cas, listed);
  }

  /** Writing `body` to bucket `at` while the log grows to `log'`. */
  lemma WriteKeeps(s: State, sel: nat, at: nat, body: Body, cas: nat, listed: nat, log': seq<Entry>)
    requires Inv(s, sel) && at in s.buckets && MayName(s.buckets[at], body, cas, listed)
    requires s.log <= log' && LogOk(log') && BodyOk(log', body) && (at == sel ==> |s.log| < |log'|)
    requires SelectedOk(log', if at == sel then Put(s.buckets[at], body, cas, listed) else s.buckets[sel])
    ensures Inv(s.(buckets := s.buckets[at := Put(s.buckets[at], body, cas, listed)], log := log'), sel)
  {
    WriteGrows(s, sel, at, body, cas, listed, log');
    TasksGrow(s, sel, log', s.buckets[at := Put(s.buckets[at], body, cas, listed)]);
    BucketsOkAfterWrite(s, at, body, cas, listed, log');
    SlotsGrow(s, log');
  }

  // ----- The publish path --------------------------------------------------------------

  /** On the selected bucket the shortcut a sweep takes when the epoch has not moved is
      the three-way merge, because an epoch names one body there. */
  lemma SweepIsMerge(log: seq<Entry>, b: Bucket, floor: nat, view: View, edit: Edit)
    requires edit.Sweep? && ViewOk(log, b, floor, view)
    requires edit.baseEpoch <= floor && IsPublished(log, edit.base, edit.baseEpoch)
    ensures SweepNext(view, edit) == Effect(edit, true, view.names)
  {
    if !view.isReal || view.epoch == edit.baseEpoch {
      assert edit.base == view.names;
    }
  }

  /** Where a landing conditional write finds the selected bucket: still holding what the
      call read, which is the last publish, so the stamp is exactly one above it. */
  lemma CasFindsLatest(s: State, sel: nat, step: Step)
    requires Inv(s, sel) && CanCas(s, step)
    ensures var t := s.tasks[step.id];
            && t.bucket == sel && FloorOf(t) <= |s.log| && !t.phase.behind
            && t.phase.view.epoch == |s.log| == t.phase.looked
            && t.phase.epoch == |s.log| + 1 && t.phase.live <= t.phase.from == |s.log|
            && BaseOk(s.log, t.edit, |s.log|)
            && t.phase.next == Effect(t.edit, t.phase.verdict, t.phase.have)
            && t.phase.next != t.phase.have == Stored(s.log, |s.log|)
            && (t.edit.One? ==> t.phase.verdict == t.edit.blocked)
  {
    assert TaskOk(s.log, s.buckets, sel, s.tasks[step.id]);
    assert BucketOk(s.log, s.buckets[sel]);
  }

  lemma LogExtends(log: seq<Entry>, e: Entry)
    requires LogOk(log) && EntryOk(e, |log|, Stored(log, |log|)) && BaseOk(log, e.edit, |log|)
    ensures LogOk(log + [e]) && IsPublished(log + [e], e.names, |log| + 1)
  {
    var log' := log + [e];
    forall k | 0 <= k < |log'|
      ensures EntryAt(log', k)
    {
      assert k < |log| ==> EntryAt(log, k);
      StoredGrows(log, log', k);
      BaseGrows(log, log', log'[k].edit, k);
    }
  }

  lemma BaseGrows(log: seq<Entry>, log': seq<Entry>, edit: Edit, k: nat)
    requires log <= log' && BaseOk(log, edit, k)
    ensures BaseOk(log', edit, k)
  {
    if edit.Sweep? {
      StoredGrows(log, log', edit.baseEpoch);
    }
  }

  lemma RetryKeeps(s: State, sel: nat, id: nat)
    requires Inv(s, sel) && id in s.tasks && s.tasks[id].Publish?
    ensures Inv(SetPhase(s, id, Returned(false, 0, false)), sel)
    ensures FloorOf(s.tasks[id]) < |s.log| ==> Inv(Retry(s, id), sel)
  {
    var t := s.tasks[id];
    assert TaskOk(s.log, s.buckets, sel, t);
    SetTaskKeeps(s, sel, id, t.(phase := Returned(false, 0, false)));
    if t.attempts > 1 && FloorOf(t) < |s.log| {
      SetTaskKeeps(s, sel, id, t.(attempts := t.attempts - 1, phase := Ready));
    }
  }

  /** A race is lost only to a publish that landed since the loser read the bucket. */
  lemma LoserWasOvertaken(s: State, sel: nat, id: nat)
    requires Inv(s, sel) && CanEnd(s, CasLoses(id))
    ensures FloorOf(s.tasks[id]) <= s.tasks[id].phase.view.epoch < |s.log|
  {
    assert TaskOk(s.log, s.buckets, sel, s.tasks[id]);
  }

  lemma CasKeepsInv(s: State, sel: nat, step: Step)
    requires Inv(s, sel) && CanCas(s, step)
    ensures Inv(ApplyCas(s, step), sel)
  {
    CasFindsLatest(s, sel, step);
    var t := s.tasks[step.id];
    var p := t.phase;
    var entry := Entry(p.next, p.epoch, t.edit, p.verdict, p.looked);
    var log' := s.log + [entry];
    LogExtends(s.log, entry);
    WriteKeeps(s, sel, sel, Readable(p.next, p.epoch), step.cas, step.listed, log');
    var written := s.(
      buckets := s.buckets[sel := Put(s.buckets[sel], Readable(p.next, p.epoch), step.cas, step.listed)],
      log := log');
    match step.report
    case Wrote =>
      SetTaskKeeps(written, sel, step.id, t.(phase := Through(Seeding(p.next, p.epoch, step.peers, Idle), p.verdict)));
    case Conflict => RetryKeeps(written, sel, step.id);
    case Failed => RetryKeeps(written, sel, step.id);
  }

  /** A seed's conditional write never lands on the selected bucket; on any other it
      replaces a copy that is absent, unreadable or older. */
  lemma SeedWriteFindsOlder(s: State, sel: nat, step: Step)
    requires Inv(s, sel) && CanSeedWrite(s, step)
    ensures var sd := SeedingOf(s.tasks[step.id]);
            && sd.queue[0] != sel && sd.epoch > 0 && IsPublished(s.log, sd.names, sd.epoch)
            && (s.buckets[sd.queue[0]].current.Some? && s.buckets[sd.queue[0]].current.value.body.Readable?
                ==> s.buckets[sd.queue[0]].current.value.body.epoch < sd.epoch)
  {
    assert TaskOk(s.log, s.buckets, sel, s.tasks[step.id]);
    assert BucketOk(s.log, s.buckets[SeedingOf(s.tasks[step.id]).queue[0]]);
  }

  /** A seed that moves on to its next bucket. */
  lemma SeedAdvances(log: seq<Entry>, buckets: map<nat, Bucket>, sel: nat, t: Task)
    requires sel in buckets && TaskOk(log, buckets, sel, t) && IsSeeding(t) && SeedingOf(t).queue != []
    ensures TaskOk(log, buckets, sel, WithSeeding(t, SeedingOf(t).(queue := SeedingOf(t).queue[1..], held := Idle)))
  {
  }

  lemma SeedWriteKeepsInv(s: State, sel: nat, step: Step)
    requires Inv(s, sel) && CanSeedWrite(s, step)
    ensures Inv(ApplySeedWrite(s, step), sel)
  {
    SeedWriteFindsOlder(s, sel, step);
    var t := s.tasks[step.id];
    var sd := SeedingOf(t);
    var b := sd.queue[0];
    WriteKeeps(s, sel, b, Readable(sd.names, sd.epoch), step.cas, step.listed, s.log);
    var put := Put(s.buckets[b], Readable(sd.names, sd.epoch), step.cas, step.listed);
    var written := s.(buckets := s.buckets[b := put]);
    assert written == s.(buckets := written.buckets, log := s.log);
    SeedAdvances(s.log, written.buckets, sel, t);
    SetTaskKeeps(written, sel, step.id, WithSeeding(t, sd.(queue := sd.queue[1..], held := Idle)));
  }

  /** A look at the next bucket leaves nothing to do, or a token naming an older copy. */
  lemma LookOk(log: seq<Entry>, buckets: map<nat, Bucket>, sel: nat, t: Task)
    requires sel in buckets && TaskOk(log, buckets, sel, t) && IsSeeding(t) && SeedingOf(t).queue != []
    requires SeedingOf(t).queue[0] in buckets && BucketOk(log, buckets[SeedingOf(t).queue[0]])
             && SelectedOk(log, buckets[sel])
    ensures TaskOk(log, buckets, sel, WithSeeding(t, SeedLook(SeedingOf(t), buckets[SeedingOf(t).queue[0]])))
  {
    var sd := SeedingOf(t);
    assert SeedOk(log, buckets, sel, SeedLook(sd, buckets[sd.queue[0]]));
  }

  lemma SeedKeepsInv(s: State, sel: nat, step: Step)
    requires Inv(s, sel) && CanSeed(s, step)
    ensures Inv(ApplySeed(s, step), sel)
  {
    var t := s.tasks[step.id];
    if step.SeedRead? {
      LookOk(s.log, s.buckets, sel, t);
    } else {
      SeedAdvances(s.log, s.buckets, sel, t);
    }
    SetTaskKeeps(s, sel, step.id, ApplySeed(s, step).tasks[step.id]);
  }

  lemma AdoptKeepsSlot(log: seq<Entry>, slot: Slot, names: set<string>, epoch: nat, etag: Option<Option<nat>>)
    requires SlotOk(log, slot) && IsPublished(log, names, epoch)
    ensures SlotOk(log, Adopt(slot, names, epoch, etag))
  {
  }

  /** A read of the selected bucket is a view of the last publish. */
  lemma FetchOk(log: seq<Entry>, b: Bucket, edit: Edit, floor: nat)
    requires BucketOk(log, b) && SelectedOk(log, b) && floor <= |log| && ReadView(b, edit).Some?
    ensures ViewOk(log, b, floor, ReadView(b, edit).value)
    ensures ReadView(b, edit).value.epoch == |log|
  {
  }

  lemma DecideOk(log: seq<Entry>, buckets: map<nat, Bucket>, sel: nat, edit: Edit, floor: nat, p: Phase,
                 status: map<string, bool>)
    requires sel in buckets && p.Based? && PhaseOk(log, buckets, sel, edit, floor, p) && floor <= |log|
    requires edit.Sweep? ==> edit.baseEpoch <= floor && IsPublished(log, edit.base, edit.baseEpoch)
    ensures var verdict := DecideVerdict(edit, p.have, status);
            PhaseOk(log, buckets, sel, edit, floor,
                    Derived(p.view, p.behind, p.seen, p.have, p.from, NextSet(edit, p.view, p.have, verdict), verdict,
                            |log|))
  {
    if edit.Sweep? {
      SweepIsMerge(log, buckets[sel], floor, p.view, edit);
    }
  }

  lemma StampOk(log: seq<Entry>, buckets: map<nat, Bucket>, sel: nat, edit: Edit, floor: nat, p: Phase, live: nat)
    requires sel in buckets && p.Derived? && !Confirms(p) && PhaseOk(log, buckets, sel, edit, floor, p)
    requires live <= |log| < U64_MAX
    ensures PhaseOk(log, buckets, sel, edit, floor,
                    Stamped(p.view, p.behind, p.seen, p.have, p.from, p.next, p.verdict, p.looked, live,
                            StampEpoch(p.view, live)))
  {
  }

  lemma JudgeOk(log: seq<Entry>, buckets: map<nat, Bucket>, sel: nat, edit: Edit, floor: nat, p: Phase, live: nat)
    requires sel in buckets && p.Fetched? && PhaseOk(log, buckets, sel, edit, floor, p) && live <= |log|
    ensures PhaseOk(log, buckets, sel, edit, floor, Judged(p.view, p.view.epoch < live && !edit.Sweep?, live))
  {
  }

  lemma NextPhaseOk(s: State, sel: nat, step: Step)
    requires Inv(s, sel) && CanAttempt(s, step) && |s.log| < U64_MAX
    ensures s.tasks[step.id].bucket == sel
    ensures PhaseOk(s.log, s.buckets, sel, s.tasks[step.id].edit, FloorOf(s.tasks[step.id]), NextPhase(s, step))
  {
    var t := s.tasks[step.id];
    assert TaskOk(s.log, s.buckets, sel, t);
    assert SlotOk(s.log, s.slots[t.node]);
    AttemptOk(s, sel, step);
  }

  lemma AttemptOk(s: State, sel: nat, step: Step)
    requires sel in s.buckets && BucketOk(s.log, s.buckets[sel]) && SelectedOk(s.log, s.buckets[sel])
    requires CanAttempt(s, step) && TaskOk(s.log, s.buckets, sel, s.tasks[step.id])
    requires s.slots[s.tasks[step.id].node].epoch <= |s.log| < U64_MAX
    ensures PhaseOk(s.log, s.buckets, sel, s.tasks[step.id].edit, FloorOf(s.tasks[step.id]), NextPhase(s, step))
  {
    var t := s.tasks[step.id];
    var slot := s.slots[t.node];
    match step
    case Fetch(_) =>
      if ReadView(s.buckets[sel], t.edit).Some? {
        FetchOk(s.log, s.buckets[sel], t.edit, FloorOf(t));
      }
    case Judge(_) => JudgeOk(s.log, s.buckets, sel, t.edit, FloorOf(t), t.phase, slot.epoch);
    case Rebase(_) => RebaseOk(s.log, s.buckets, sel, t.edit, FloorOf(t), t.phase, slot);
    case Decide(_) => DecideOk(s.log, s.buckets, sel, t.edit, FloorOf(t), t.phase, s.status);
    case Stamp(_) => StampOk(s.log, s.buckets, sel, t.edit, FloorOf(t), t.phase, slot.epoch);
  }

  lemma RebaseOk(log: seq<Entry>, buckets: map<nat, Bucket>, sel: nat, edit: Edit, floor: nat, p: Phase, slot: Slot)
    requires sel in buckets && p.Judged? && PhaseOk(log, buckets, sel, edit, floor, p)
    ensures PhaseOk(log, buckets, sel, edit, floor,
                    if p.behind then Based(p.view, true, p.seen, slot.names, slot.epoch)
                    else Based(p.view, false, p.seen, p.view.names, p.view.epoch))
  {
  }

  lemma AttemptKeepsInv(s: State, sel: nat, step: Step)
    requires Inv(s, sel) && CanAttempt(s, step) && |s.log| < U64_MAX
    ensures Inv(ApplyAttempt(s, step), sel)
  {
    NextPhaseOk(s, sel, step);
    assert TaskOk(s.log, s.buckets, sel, s.tasks[step.id]);
    SetTaskKeeps(s, sel, step.id, s.tasks[step.id].(phase := NextPhase(s, step)));
  }

  /** What a call is about to adopt is a published pair in which its edit has landed. */
  lemma ReturnsPublished(log: seq<Entry>, buckets: map<nat, Bucket>, sel: nat, edit: Edit, floor: nat, p: Phase)
    requires sel in buckets && PhaseOk(log, buckets, sel, edit, floor, p)
    ensures Confirms(p) ==>
              && IsPublished(log, p.next, p.view.epoch) && floor <= p.view.epoch
              && Landed(log, edit, p.verdict, p.view.epoch)
    ensures p.Through? ==>
              && IsPublished(log, p.seeding.names, p.seeding.epoch) && floor <= p.seeding.epoch
              && Landed(log, edit, p.verdict, p.seeding.epoch)
  {
  }

  lemma ReturnKeepsInv(s: State, sel: nat, step: Step)
    requires Inv(s, sel) && CanReturn(s, step)
    ensures Inv(ApplyReturn(s, step), sel)
  {
    var t := s.tasks[step.id];
    var p := t.phase;
    assert TaskOk(s.log, s.buckets, sel, t);
    assert SlotOk(s.log, s.slots[t.node]);
    ReturnsPublished(s.log, s.buckets, sel, t.edit, FloorOf(t), p);
    var (names, epoch, etag) :=
      if step.Confirm? then (p.next, p.view.epoch, None) else (p.seeding.names, p.seeding.epoch, Some(None));
    AdoptKeepsSlot(s.log, s.slots[t.node], names, epoch, etag);
    var slot := Adopt(s.slots[t.node], names, epoch, etag);
    SetSlotKeeps(s, sel, t.node, slot);
    SetTaskKeeps(SetSlot(s, t.node, slot), sel, step.id, t.(phase := Returned(true, epoch, p.verdict)));
  }

  // ----- Polls and the rest --------------------------------------------------------------

  lemma PollKeepsInv(s: State, sel: nat, step: Step)
    requires Inv(s, sel) && CanPoll(s, step)
    ensures Inv(ApplyPoll(s, step), sel)
  {
    match step
    case BeginPoll(id, node, bucket) =>
      if s.buckets[bucket].current.Some? {
        SetTaskKeeps(s, sel, id, Poll(node, bucket, s.buckets[bucket].current.value.listed, |s.log|, Listed));
      }
    case ComparePoll(id) =>
      assert TaskOk(s.log, s.buckets, sel, s.tasks[id]);
      DropTaskKeeps(s, sel, id);
      SetTaskKeeps(s, sel, id, s.tasks[id].(progress := Moved));
    case GetPoll(id) => GetKeepsInv(s, sel, step);
  }

  lemma GetKeepsInv(s: State, sel: nat, step: Step)
    requires Inv(s, sel) && CanPoll(s, step) && step.GetPoll?
    ensures Inv(ApplyPoll(s, step), sel)
  {
    var t := s.tasks[step.id];
    assert TaskOk(s.log, s.buckets, sel, t);
    assert BucketOk(s.log, s.buckets[t.bucket]);
    match s.buckets[t.bucket].current.value.body
    case Unreadable(_) => DropTaskKeeps(s, sel, step.id);
    case Readable(names, epoch) => SetTaskKeeps(s, sel, step.id, t.(progress := Got(names, epoch)));
  }

  lemma EndPollKeepsInv(s: State, sel: nat, step: Step)
    requires Inv(s, sel) && CanAdopt(s, step)
    ensures Inv(ApplyAdopt(s, step), sel)
  {
    var t := s.tasks[step.id];
    assert TaskOk(s.log, s.buckets, sel, t);
    assert SlotOk(s.log, s.slots[t.node]);
    var slot := Adopt(s.slots[t.node], t.progress.names, t.progress.epoch, Some(Some(t.listed)));
    AdoptKeepsSlot(s.log, s.slots[t.node], t.progress.names, t.progress.epoch, Some(Some(t.listed)));
    SetSlotKeeps(s, sel, t.node, slot);
    DropTaskKeeps(SetSlot(s, t.node, slot), sel, step.id);
  }

  lemma RestartKeeps(s: State, sel: nat, node: nat)
    requires Inv(s, sel)
    ensures Inv(s.(tasks := Survivors(s.tasks, node)), sel)
  {
    var tasks' := Survivors(s.tasks, node);
    forall id | id in tasks'
      ensures TaskOk(s.log, s.buckets, sel, tasks'[id])
    {
      assert TaskOk(s.log, s.buckets, sel, s.tasks[id]);
      if Sent(s.tasks[id]) {
        AdriftOk(s.log, s.buckets, sel, s.tasks[id]);
      }
    }
  }

  lemma NodeKeepsInv(s: State, sel: nat, step: Step)
    requires Inv(s, sel) && CanNode(s, step)
    ensures Inv(ApplyNode(s, step), sel)
  {
    if step.ArmLocal? {
      assert SlotOk(s.log, s.slots[step.node]);
      SetSlotKeeps(s, sel, step.node, Arm(s.slots[step.node], step.name, step.blocked));
    } else if step.Restart? {
      RestartKeeps(s, sel, step.node);
      SetSlotKeeps(s.(tasks := Survivors(s.tasks, step.node)), sel, step.node, FRESH);
    }
  }

  lemma BeginKeepsInv(s: State, sel: nat, step: Step)
    requires Inv(s, sel) && CanBegin(s, step) && PublishesOn(step, sel)
    ensures Inv(ApplyBegin(s, step), sel)
  {
    match step
    case BeginWalk(id, node, _) =>
      assert BucketOk(s.log, s.buckets[sel]);
      var (base, epoch) := SweepBase(s.buckets[sel]);
      SetTaskKeeps(s, sel, id, Walk(node, sel, base, epoch));
    case EndWalk(id, derived) =>
      var t := s.tasks[id];
      assert TaskOk(s.log, s.buckets, sel, t);
      SetTaskKeeps(s, sel, id,
                   Publish(t.node, sel, Sweep(derived, t.base, t.baseEpoch), |s.log|, CAS_ATTEMPTS, Ready, true));
    case BeginPublish(id, node, _, edit) =>
      SetTaskKeeps(s, sel, id, Publish(node, sel, edit, |s.log|, CAS_ATTEMPTS, Ready, true));
    case BeginReseed(id, node, queue) =>
      assert SlotOk(s.log, s.slots[node]);
      SetTaskKeeps(s, sel, id, Reseed(node, Seeding(s.slots[node].names, s.slots[node].epoch, queue, Idle)));
  }

  lemma AdriftOk(log: seq<Entry>, buckets: map<nat, Bucket>, sel: nat, t: Task)
    requires sel in buckets && TaskOk(log, buckets, sel, t) && Sent(t)
    ensures TaskOk(log, buckets, sel, Adrift(t))
  {
  }

  lemma EndKeepsInv(s: State, sel: nat, step: Step)
    requires Inv(s, sel) && CanEnd(s, step)
    ensures Inv(ApplyEnd(s, step), sel)
  {
    match step
    case CasLoses(id) =>
      LoserWasOvertaken(s, sel, id);
      RetryKeeps(s, sel, id);
    case Abort(id) =>
      DropTaskKeeps(s, sel, id);
      if s.tasks[id].Publish? {
        RetryKeeps(s, sel, id);
      }
    case Abandon(id) =>
      assert TaskOk(s.log, s.buckets, sel, s.tasks[id]);
      AdriftOk(s.log, s.buckets, sel, s.tasks[id]);
      SetTaskKeeps(s, sel, id, Adrift(s.tasks[id]));
  }

  /** One step, of any kind, keeps the invariant. */
  lemma StepKeepsInv(s: State, sel: nat, step: Step)
    requires Inv(s, sel) && Enabled(s, step) && PublishesOn(step, sel) && |s.log| < U64_MAX
    ensures Inv(Apply(s, step), sel)
  {
    match KindOf(step)
    case NodeKind => NodeKeepsInv(s, sel, step);
    case BeginKind => BeginKeepsInv(s, sel, step);
    case AttemptKind => AttemptKeepsInv(s, sel, step);
    case ReturnKind => ReturnKeepsInv(s, sel, step);
    case CasKind => CasKeepsInv(s, sel, step);
    case EndKind => EndKeepsInv(s, sel, step);
    case PollKind => PollKeepsInv(s, sel, step);
    case AdoptKind => EndPollKeepsInv(s, sel, step);
    case SeedKind => SeedKeepsInv(s, sel, step);
    case SeedWriteKind => SeedWriteKeepsInv(s, sel, step);
  }
}
