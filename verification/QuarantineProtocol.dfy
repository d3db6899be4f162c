/** The shared quarantined-set protocol as interleaved steps over nodes, buckets and
    in-flight calls.

    Storage is modelled by what the protocol relies on: per-key atomic reads and
    conditional writes, and tokens that identify content. A bucket may hand out any
    token on a write as long as no token of either kind (the conditional-write token
    and the listing etag) ever names two different bodies; content digests and fresh
    version numbers both qualify. A conditional write that lands may still be reported
    to its caller as a conflict or as an error, and one that was sent may land after its
    caller has given up on it or died. A write that does not land is a conflict only if
    the token no longer matches. */
module QuarantineProtocol {
  import opened Prelude
  import opened QuarantineSlot

  // ----- Storage ---------------------------------------------------------------

  /** The stored envelope, or bytes that do not parse as one. */
  datatype Body = Readable(names: set<string>, epoch: nat) | Unreadable(blob: nat)

  datatype Object = Object(body: Body, cas: nat, listed: nat)

  /** One bucket's copy of the key, with every body its tokens have ever named. */
  datatype Bucket = Bucket(current: Option<Object>, casNames: map<nat, Body>, listNames: map<nat, Body>)

  predicate MayName(b: Bucket, body: Body, cas: nat, listed: nat) {
    && (cas in b.casNames ==> b.casNames[cas] == body)
    && (listed in b.listNames ==> b.listNames[listed] == body)
  }

  function Put(b: Bucket, body: Body, cas: nat, listed: nat): Bucket {
    Bucket(Some(Object(body, cas, listed)), b.casNames[cas := body], b.listNames[listed := body])
  }

  /** `put_if_match` when a token is held, `put_if_none_match` otherwise. */
  predicate Matches(b: Bucket, token: Option<nat>) {
    match token
    case None => b.current.None?
    case Some(t) => b.current.Some? && b.current.value.cas == t
  }

  // ----- In-flight work --------------------------------------------------------

  datatype Edit =
    | One(name: string, blocked: bool)
    | Derive(name: string, blocked: bool)
    | Sweep(derived: set<string>, base: set<string>, baseEpoch: nat)

  /** What a publish read: the stored pair (the empty pair at epoch zero stands in for
      an absent or unreadable key), the token to write against, and whether a body was
      really read. */
  datatype View = View(names: set<string>, epoch: nat, token: Option<nat>, isReal: bool)

  datatype Held = Idle | Holding(token: Option<nat>)

  /** A published pair on its way to the buckets in `queue`, one at a time: read, then
      write conditionally on what was read. */
  datatype Seeding = Seeding(names: set<string>, epoch: nat, queue: seq<nat>, held: Held)

  /** Where a publish stands inside one attempt. Every read of the node's live slot is
      its own phase, because another task may change the slot between two of them.
      `seen` is the live epoch the bucket was judged against, `have` the set the edit is
      applied to and `from` that set's epoch, `verdict` the membership it writes and
      `looked` the number of publishes that had landed when that was decided, and `live`
      the live epoch the stamp `epoch` was put above. */
  datatype Phase =
    | Ready
    | Fetched(view: View)
    | Judged(view: View, behind: bool, seen: nat)
    | Based(view: View, behind: bool, seen: nat, have: set<string>, from: nat)
    | Derived(view: View, behind: bool, seen: nat, have: set<string>, from: nat,
              next: set<string>, verdict: bool, looked: nat)
    | Stamped(view: View, behind: bool, seen: nat, have: set<string>, from: nat,
              next: set<string>, verdict: bool, looked: nat, live: nat, epoch: nat)
    | Through(seeding: Seeding, verdict: bool)
    | Returned(ok: bool, at: nat, verdict: bool)

  /** Where a poll stands: the etag listed, found to have moved, the body fetched. */
  datatype Progress = Listed | Moved | Got(names: set<string>, epoch: nat)

  /** `began` and `floor` record how many publishes had landed when the call, or the
      poll's LIST, ran. A call that is no longer `waited` for is only a write on its way. */
  datatype Task =
    | Walk(node: nat, bucket: nat, base: set<string>, baseEpoch: nat)
    | Publish(node: nat, bucket: nat, edit: Edit, began: nat, attempts: nat, phase: Phase, waited: bool)
    | Poll(node: nat, bucket: nat, listed: nat, floor: nat, progress: Progress)
    | Reseed(node: nat, seeding: Seeding)

  /** One landed publish, in the order the conditional writes landed. */
  datatype Entry = Entry(names: set<string>, epoch: nat, edit: Edit, verdict: bool, looked: nat)

  datatype State = State(
    slots: map<nat, Slot>,
    buckets: map<nat, Bucket>,
    status: map<string, bool>,
    tasks: map<nat, Task>,
    log: seq<Entry>)

  const CAS_ATTEMPTS: nat := 8

  // ----- The publish computation -----------------------------------------------

  /** The stored pair as an edit sees it; `None` when the edit must fail instead. */
  function ReadView(b: Bucket, edit: Edit): Option<View> {
    match b.current
    case None => Some(View({}, 0, None, false))
    case Some(o) =>
      match o.body
      case Readable(names, epoch) => Some(View(names, epoch, Some(o.cas), true))
      case Unreadable(_) => if edit.Sweep? then Some(View({}, 0, Some(o.cas), false)) else None
  }

  /** The pair a sweep starts from. */
  function SweepBase(b: Bucket): (set<string>, nat) {
    match b.current
    case Some(Object(Readable(names, epoch), _, _)) => (names, epoch)
    case _ => ({}, 0)
  }

  /** The set a sweep writes: its own when nothing real was read or the epoch has not
      moved, else its own plus what was added since the base, minus what was removed. */
  function SweepNext(view: View, edit: Edit): set<string>
    requires edit.Sweep?
  {
    if !view.isReal || view.epoch == edit.baseEpoch then edit.derived
    else (edit.derived + (view.names - edit.base)) - (edit.base - view.names)
  }

  /** The membership an edit will write for its name; a derive that would change the
      set asks the durable status instead of trusting its own older reading. */
  function DecideVerdict(edit: Edit, have: set<string>, status: map<string, bool>): bool {
    match edit
    case One(_, blocked) => blocked
    case Derive(name, blocked) =>
      if With(have, name, blocked) == have then blocked else name in status && status[name]
    case Sweep(_, _, _) => true
  }

  function NextSet(edit: Edit, view: View, have: set<string>, verdict: bool): set<string> {
    match edit
    case One(name, _) => With(have, name, verdict)
    case Derive(name, _) => With(have, name, verdict)
    case Sweep(_, _, _) => SweepNext(view, edit)
  }

  function StampEpoch(view: View, live: nat): nat {
    SatAdd(Max(view.epoch, live), 1)
  }

  // ----- Steps -----------------------------------------------------------------

  datatype Report = Wrote | Conflict | Failed

  datatype Step =
    | SetStatus(name: string, blocked: bool)
    | ArmLocal(node: nat, name: string, blocked: bool)
    | Restart(node: nat)
    | BeginWalk(id: nat, node: nat, bucket: nat)
    | EndWalk(id: nat, derived: set<string>)
    | BeginPublish(id: nat, node: nat, bucket: nat, edit: Edit)
    | Fetch(id: nat)
    | Judge(id: nat)
    | Rebase(id: nat)
    | Decide(id: nat)
    | Confirm(id: nat)
    | Stamp(id: nat)
    | CasLands(id: nat, cas: nat, listed: nat, report: Report, peers: seq<nat>)
    | CasLoses(id: nat)
    | Finish(id: nat)
    | BeginPoll(id: nat, node: nat, bucket: nat)
    | ComparePoll(id: nat)
    | GetPoll(id: nat)
    | EndPoll(id: nat)
    | BeginReseed(id: nat, node: nat, queue: seq<nat>)
    | SeedRead(id: nat)
    | SeedWrite(id: nat, cas: nat, listed: nat)
    | SeedSkip(id: nat)
    | Abort(id: nat)
    | Abandon(id: nat)

  /** Task `id` is a publish whose node and bucket exist. */
  predicate Publishing(s: State, id: nat) {
    && id in s.tasks && s.tasks[id].Publish?
    && s.tasks[id].node in s.slots && s.tasks[id].bucket in s.buckets
  }

  /** Task `id` is a publish call that someone waits for. */
  predicate Calling(s: State, id: nat) {
    Publishing(s, id) && s.tasks[id].waited
  }

  /** Task `id` is a poll whose node and bucket exist. */
  predicate Polling(s: State, id: nat) {
    && id in s.tasks && s.tasks[id].Poll?
    && s.tasks[id].node in s.slots && s.tasks[id].bucket in s.buckets
  }

  predicate Confirms(p: Phase) {
    p.Derived? && p.next == p.have && !p.behind
  }

  /** Whether this work is in the middle of writing a published pair to other buckets. */
  predicate IsSeeding(t: Task) {
    t.Reseed? || (t.Publish? && t.phase.Through?)
  }

  function SeedingOf(t: Task): Seeding
    requires IsSeeding(t)
  {
    if t.Reseed? then t.seeding else t.phase.seeding
  }

  function WithSeeding(t: Task, seeding: Seeding): (r: Task)
    requires IsSeeding(t)
    ensures IsSeeding(r) && SeedingOf(r) == seeding
  {
    if t.Reseed? then t.(seeding := seeding) else t.(phase := t.phase.(seeding := seeding))
  }

  /** A conditional write may be on its way. */
  predicate Sent(t: Task) {
    (t.Publish? && t.phase.Stamped?) || (IsSeeding(t) && SeedingOf(t).held.Holding?)
  }

  /** That write alone, with nobody waiting for it. */
  function Adrift(t: Task): Task
    requires Sent(t)
  {
    if t.Publish? && t.phase.Stamped? then t.(waited := false)
    else
      var sd := SeedingOf(t);
      var last := sd.(queue := if sd.queue == [] then [] else sd.queue[..1]);
      if t.Reseed? then t.(seeding := last) else t.(phase := t.phase.(seeding := last), waited := false)
  }

  predicate SeedTask(s: State, id: nat) {
    && id in s.tasks && IsSeeding(s.tasks[id])
    && SeedingOf(s.tasks[id]).queue != []
    && SeedingOf(s.tasks[id]).queue[0] in s.buckets
  }

  /** The steps by what they touch. */
  datatype Kind = NodeKind | BeginKind | AttemptKind | ReturnKind | CasKind | EndKind
                | PollKind | AdoptKind | SeedKind | SeedWriteKind

  function KindOf(step: Step): Kind {
    match step
    case SetStatus(_, _) => NodeKind
    case ArmLocal(_, _, _) => NodeKind
    case Restart(_) => NodeKind
    case BeginWalk(_, _, _) => BeginKind
    case EndWalk(_, _) => BeginKind
    case BeginPublish(_, _, _, _) => BeginKind
    case BeginReseed(_, _, _) => BeginKind
    case Fetch(_) => AttemptKind
    case Judge(_) => AttemptKind
    case Rebase(_) => AttemptKind
    case Decide(_) => AttemptKind
    case Stamp(_) => AttemptKind
    case Confirm(_) => ReturnKind
    case Finish(_) => ReturnKind
    case CasLands(_, _, _, _, _) => CasKind
    case CasLoses(_) => EndKind
    case Abort(_) => EndKind
    case Abandon(_) => EndKind
    case BeginPoll(_, _, _) => PollKind
    case ComparePoll(_) => PollKind
    case GetPoll(_) => PollKind
    case EndPoll(_) => AdoptKind
    case SeedRead(_) => SeedKind
    case SeedSkip(_) => SeedKind
    case SeedWrite(_, _, _) => SeedWriteKind
  }

  // ----- Building states -----------------------------------------------------------

  function SetTask(s: State, id: nat, t: Task): State {
    s.(tasks := s.tasks[id := t])
  }

  function SetPhase(s: State, id: nat, p: Phase): State
    requires id in s.tasks && s.tasks[id].Publish?
  {
    SetTask(s, id, s.tasks[id].(phase := p))
  }

  function SetSlot(s: State, node: nat, slot: Slot): State {
    s.(slots := s.slots[node := slot])
  }

  function DropTask(s: State, id: nat): State {
    s.(tasks := s.tasks - {id})
  }

  /** A failed attempt: retry while attempts remain, else the call returns an error. */
  function Retry(s: State, id: nat): State
    requires id in s.tasks && s.tasks[id].Publish?
  {
    var t := s.tasks[id];
    if t.attempts <= 1 then SetPhase(s, id, Returned(false, 0, false))
    else SetTask(s, id, t.(attempts := t.attempts - 1, phase := Ready))
  }

  /** What a seed remembers about a bucket: nothing to do when the copy is readable and
      at least as new, else the token to write against. */
  function SeedLook(sd: Seeding, b: Bucket): Seeding
    requires sd.queue != []
  {
    match b.current
    case None => sd.(held := Holding(None))
    case Some(o) =>
      if o.body.Readable? && o.body.epoch >= sd.epoch then sd.(queue := sd.queue[1..], held := Idle)
      else sd.(held := Holding(Some(o.cas)))
  }

  /** What a restart of `node` leaves in flight: other nodes' work, and the node's own
      writes that were already sent. */
  function Survivors(tasks: map<nat, Task>, node: nat): map<nat, Task> {
    map id | id in tasks && (tasks[id].node != node || Sent(tasks[id])) ::
      if tasks[id].node != node then tasks[id] else Adrift(tasks[id])
  }

  // ----- Node steps ------------------------------------------------------------------

  predicate CanNode(s: State, step: Step) {
    match step
    case SetStatus(_, _) => true
    case ArmLocal(node, _, _) => node in s.slots
    case Restart(node) => node in s.slots
    case _ => false
  }

  /** A durable status write, a local arm, or a process restart, which loses the live slot
      and the node's in-flight work but for the writes already sent. */
  function ApplyNode(s: State, step: Step): State
    requires CanNode(s, step)
  {
    match step
    case SetStatus(name, blocked) => s.(status := s.status[name := blocked])
    case ArmLocal(node, name, blocked) => SetSlot(s, node, Arm(s.slots[node], name, blocked))
    case Restart(node) =>
      SetSlot(s.(tasks := Survivors(s.tasks, node)), node, FRESH)
  }

  // ----- Starting work ---------------------------------------------------------------

  predicate CanBegin(s: State, step: Step) {
    match step
    case BeginWalk(id, node, bucket) => id !in s.tasks && node in s.slots && bucket in s.buckets
    case EndWalk(id, _) => id in s.tasks && s.tasks[id].Walk?
    case BeginPublish(id, node, bucket, edit) =>
      id !in s.tasks && node in s.slots && bucket in s.buckets && !edit.Sweep?
    case BeginReseed(id, node, _) =>
      id !in s.tasks && node in s.slots && s.slots[node].epoch > 0 && !s.slots[node].unpublished
    case _ => false
  }

  /** A sweep reads its base, walks, then publishes what it derived; the leader re-seeds
      from a node whose set and epoch belong together. */
  function ApplyBegin(s: State, step: Step): State
    requires CanBegin(s, step)
  {
    match step
    case BeginWalk(id, node, bucket) =>
      var (base, epoch) := SweepBase(s.buckets[bucket]);
      SetTask(s, id, Walk(node, bucket, base, epoch))
    case EndWalk(id, derived) =>
      var t := s.tasks[id];
      SetTask(s, id, Publish(t.node, t.bucket, Sweep(derived, t.base, t.baseEpoch), |s.log|, CAS_ATTEMPTS, Ready, true))
    case BeginPublish(id, node, bucket, edit) =>
      SetTask(s, id, Publish(node, bucket, edit, |s.log|, CAS_ATTEMPTS, Ready, true))
    case BeginReseed(id, node, queue) =>
      SetTask(s, id, Reseed(node, Seeding(s.slots[node].names, s.slots[node].epoch, queue, Idle)))
  }

  // ----- One publish attempt -----------------------------------------------------------

  predicate CanAttempt(s: State, step: Step) {
    match step
    case Fetch(id) => Calling(s, id) && s.tasks[id].phase.Ready? && s.tasks[id].attempts > 0
    case Judge(id) => Calling(s, id) && s.tasks[id].phase.Fetched?
    case Rebase(id) => Calling(s, id) && s.tasks[id].phase.Judged?
    case Decide(id) => Calling(s, id) && s.tasks[id].phase.Based?
    case Stamp(id) => Calling(s, id) && s.tasks[id].phase.Derived? && !Confirms(s.tasks[id].phase)
    case _ => false
  }

  /** The phase an attempt moves to: read the bucket, judge it against the live epoch, take
      the set to edit, decide the new set, stamp it above everything seen. */
  function NextPhase(s: State, step: Step): Phase
    requires CanAttempt(s, step)
  {
    var t := s.tasks[step.id];
    var p := t.phase;
    var slot := s.slots[t.node];
    match step
    case Fetch(_) =>
      (match ReadView(s.buckets[t.bucket], t.edit)
       case None => Returned(false, 0, false)
       case Some(view) => Fetched(view))
    case Judge(_) => Judged(p.view, p.view.epoch < slot.epoch && !t.edit.Sweep?, slot.epoch)
    case Rebase(_) =>
      if p.behind then Based(p.view, true, p.seen, slot.names, slot.epoch)
      else Based(p.view, false, p.seen, p.view.names, p.view.epoch)
    case Decide(_) =>
      var verdict := DecideVerdict(t.edit, p.have, s.status);
      Derived(p.view, p.behind, p.seen, p.have, p.from, NextSet(t.edit, p.view, p.have, verdict), verdict, |s.log|)
    case Stamp(_) =>
      Stamped(p.view, p.behind, p.seen, p.have, p.from, p.next, p.verdict, p.looked,
              slot.epoch, StampEpoch(p.view, slot.epoch))
  }

  function ApplyAttempt(s: State, step: Step): State
    requires CanAttempt(s, step)
  {
    SetPhase(s, step.id, NextPhase(s, step))
  }

  predicate CanReturn(s: State, step: Step) {
    match step
    case Confirm(id) => Calling(s, id) && Confirms(s.tasks[id].phase)
    case Finish(id) => Calling(s, id) && s.tasks[id].phase.Through? && s.tasks[id].phase.seeding.queue == []
    case _ => false
  }

  /** A publish that returns Ok adopts what it confirmed or wrote. */
  function ApplyReturn(s: State, step: Step): State
    requires CanReturn(s, step)
  {
    var t := s.tasks[step.id];
    var p := t.phase;
    match step
    case Confirm(_) =>
      SetPhase(SetSlot(s, t.node, Adopt(s.slots[t.node], p.next, p.view.epoch, None)), step.id,
               Returned(true, p.view.epoch, p.verdict))
    case Finish(_) =>
      SetPhase(SetSlot(s, t.node, Adopt(s.slots[t.node], p.seeding.names, p.seeding.epoch, Some(None))), step.id,
               Returned(true, p.seeding.epoch, p.verdict))
  }

  predicate CanCas(s: State, step: Step) {
    && step.CasLands? && Publishing(s, step.id) && s.tasks[step.id].phase.Stamped?
    && (s.tasks[step.id].waited || step.report.Failed?)
    && var t := s.tasks[step.id];
       && Matches(s.buckets[t.bucket], t.phase.view.token)
       && MayName(s.buckets[t.bucket], Readable(t.phase.next, t.phase.epoch), step.cas, step.listed)
  }

  /** The conditional write lands, whatever its caller is told. */
  function ApplyCas(s: State, step: Step): State
    requires CanCas(s, step)
  {
    var t := s.tasks[step.id];
    var p := t.phase;
    var written := s.(
      buckets := s.buckets[t.bucket := Put(s.buckets[t.bucket], Readable(p.next, p.epoch), step.cas, step.listed)],
      log := s.log + [Entry(p.next, p.epoch, t.edit, p.verdict, p.looked)]);
    match step.report
    case Wrote => SetPhase(written, step.id, Through(Seeding(p.next, p.epoch, step.peers, Idle), p.verdict))
    case Conflict => Retry(written, step.id)
    case Failed => SetPhase(written, step.id, Returned(false, 0, false))
  }

  predicate CanEnd(s: State, step: Step) {
    match step
    case CasLoses(id) =>
      && Calling(s, id) && s.tasks[id].phase.Stamped?
      && !Matches(s.buckets[s.tasks[id].bucket], s.tasks[id].phase.view.token)
    case Abort(id) => id in s.tasks
    case Abandon(id) => id in s.tasks && Sent(s.tasks[id])
    case _ => false
  }

  /** A lost race retries; an error or a dropped request ends the work where it stands, or
      leaves behind the write it had sent. */
  function ApplyEnd(s: State, step: Step): State
    requires CanEnd(s, step)
  {
    match step
    case CasLoses(id) => Retry(s, id)
    case Abort(id) =>
      if s.tasks[id].Publish? && !s.tasks[id].phase.Returned?
      then SetPhase(s, id, Returned(false, 0, false))
      else DropTask(s, id)
    case Abandon(id) => SetTask(s, id, Adrift(s.tasks[id]))
  }

  // ----- Polls --------------------------------------------------------------------------

  predicate CanPoll(s: State, step: Step) {
    match step
    case BeginPoll(id, node, bucket) => id !in s.tasks && node in s.slots && bucket in s.buckets
    case ComparePoll(id) => Polling(s, id) && s.tasks[id].progress.Listed?
    case GetPoll(id) =>
      Polling(s, id) && s.tasks[id].progress.Moved? && s.buckets[s.tasks[id].bucket].current.Some?
    case _ => false
  }

  /** A poll LISTs the etag, stops if it has not moved (or the key is absent), and GETs the
      body stored by then. */
  function ApplyPoll(s: State, step: Step): State
    requires CanPoll(s, step)
  {
    match step
    case BeginPoll(id, node, bucket) =>
      (match s.buckets[bucket].current
       case None => s
       case Some(o) => SetTask(s, id, Poll(node, bucket, o.listed, |s.log|, Listed)))
    case ComparePoll(id) =>
      var t := s.tasks[id];
      if s.slots[t.node].etag == Some(t.listed) then DropTask(s, id) else SetTask(s, id, t.(progress := Moved))
    case GetPoll(id) =>
      var t := s.tasks[id];
      (match s.buckets[t.bucket].current.value.body
       case Unreadable(_) => DropTask(s, id)
       case Readable(names, epoch) => SetTask(s, id, t.(progress := Got(names, epoch))))
  }

  predicate CanAdopt(s: State, step: Step) {
    step.EndPoll? && Polling(s, step.id) && s.tasks[step.id].progress.Got?
  }

  /** A poll offers the body it fetched, under the etag listed at its start. */
  function ApplyAdopt(s: State, step: Step): State
    requires CanAdopt(s, step)
  {
    var t := s.tasks[step.id];
    var slot := Adopt(s.slots[t.node], t.progress.names, t.progress.epoch, Some(Some(t.listed)));
    DropTask(SetSlot(s, t.node, slot), step.id)
  }

  // ----- Seeding other buckets -------------------------------------------------------------

  predicate CanSeed(s: State, step: Step) {
    match step
    case SeedRead(id) => SeedTask(s, id) && SeedingOf(s.tasks[id]).held.Idle?
    case SeedSkip(id) => id in s.tasks && IsSeeding(s.tasks[id]) && SeedingOf(s.tasks[id]).queue != []
    case _ => false
  }

  function ApplySeed(s: State, step: Step): State
    requires CanSeed(s, step)
  {
    var t := s.tasks[step.id];
    var sd := SeedingOf(t);
    match step
    case SeedRead(id) => SetTask(s, id, WithSeeding(t, SeedLook(sd, s.buckets[sd.queue[0]])))
    case SeedSkip(id) => SetTask(s, id, WithSeeding(t, sd.(queue := sd.queue[1..], held := Idle)))
  }

  predicate CanSeedWrite(s: State, step: Step) {
    && step.SeedWrite? && SeedTask(s, step.id) && SeedingOf(s.tasks[step.id]).held.Holding?
    && var sd := SeedingOf(s.tasks[step.id]);
       && Matches(s.buckets[sd.queue[0]], sd.held.token)
       && MayName(s.buckets[sd.queue[0]], Readable(sd.names, sd.epoch), step.cas, step.listed)
  }

  function ApplySeedWrite(s: State, step: Step): State
    requires CanSeedWrite(s, step)
  {
    var t := s.tasks[step.id];
    var sd := SeedingOf(t);
    var b := sd.queue[0];
    SetTask(
      s.(buckets := s.buckets[b := Put(s.buckets[b], Readable(sd.names, sd.epoch), step.cas, step.listed)]),
      step.id, WithSeeding(t, sd.(queue := sd.queue[1..], held := Idle)))
  }

  // ----- All steps ---------------------------------------------------------------------------

  predicate Enabled(s: State, step: Step) {
    match KindOf(step)
    case NodeKind => CanNode(s, step)
    case BeginKind => CanBegin(s, step)
    case AttemptKind => CanAttempt(s, step)
    case ReturnKind => CanReturn(s, step)
    case CasKind => CanCas(s, step)
    case EndKind => CanEnd(s, step)
    case PollKind => CanPoll(s, step)
    case AdoptKind => CanAdopt(s, step)
    case SeedKind => CanSeed(s, step)
    case SeedWriteKind => CanSeedWrite(s, step)
  }

  function Apply(s: State, step: Step): State
    requires Enabled(s, step)
  {
    match KindOf(step)
    case NodeKind => ApplyNode(s, step)
    case BeginKind => ApplyBegin(s, step)
    case AttemptKind => ApplyAttempt(s, step)
    case ReturnKind => ApplyReturn(s, step)
    case CasKind => ApplyCas(s, step)
    case EndKind => ApplyEnd(s, step)
    case PollKind => ApplyPoll(s, step)
    case AdoptKind => ApplyAdopt(s, step)
    case SeedKind => ApplySeed(s, step)
    case SeedWriteKind => ApplySeedWrite(s, step)
  }

  // ----- Runs ------------------------------------------------------------------

  /** A run: consecutive states joined by enabled steps. */
  ghost predicate IsRun(states: seq<State>, steps: seq<Step>) {
    && |states| == |steps| + 1
    && forall i :: 0 <= i < |steps| ==> Joined(states, steps, i)
  }

  ghost predicate Joined(states: seq<State>, steps: seq<Step>, i: nat)
    requires |states| == |steps| + 1 && i < |steps|
  {
    Enabled(states[i], steps[i]) && states[i + 1] == Apply(states[i], steps[i])
  }

  /** Nothing published yet: fresh nodes, and each bucket's key absent or unreadable. */
  ghost predicate Initial(s: State) {
    && s.tasks == map[] && s.log == []
    && (forall n :: n in s.slots ==> s.slots[n] == FRESH)
    && (forall b :: b in s.buckets ==>
          match s.buckets[b].current
          case None => s.buckets[b] == Bucket(None, map[], map[])
          case Some(o) =>
            o.body.Unreadable? && s.buckets[b] == Put(Bucket(None, map[], map[]), o.body, o.cas, o.listed))
  }

  /** Every publish and sweep walk of the run works against the bucket `sel`. */
  predicate PublishesOn(step: Step, sel: nat) {
    && (step.BeginPublish? ==> step.bucket == sel)
    && (step.BeginWalk? ==> step.bucket == sel)
  }

  /** Every poll of the run reads the bucket `sel`. */
  predicate PollsOn(step: Step, sel: nat) {
    step.BeginPoll? ==> step.bucket == sel
  }

  // ----- What any step can change ------------------------------------------------------------

  /** A task that is still there afterwards is the same call or the same poll. */
  predicate SameTask(t: Task, t': Task) {
    && t'.node == t.node
    && (t.Publish? ==> t'.Publish? && t'.edit == t.edit && t'.began == t.began && t'.bucket == t.bucket)
    && (t.Poll? ==> t'.Poll? && t'.listed == t.listed && t'.floor == t.floor && t'.bucket == t.bucket)
    && (t'.Walk? ==> t' == t)
  }

  /** The log only grows, by one entry when a publish lands; buckets change only by writes;
      a live epoch falls only by a restart; work in flight keeps its identity. */
  ghost predicate Evolves(s: State, step: Step, s': State) {
    && s.log <= s'.log && |s'.log| == |s.log| + (if step.CasLands? then 1 else 0)
    && (!step.CasLands? && !step.SeedWrite? ==> s'.buckets == s.buckets)
    && (forall n :: n in s.slots ==> n in s'.slots && (step == Restart(n) || s.slots[n].epoch <= s'.slots[n].epoch))
    && (forall id :: id in s.tasks && id in s'.tasks ==> SameTask(s.tasks[id], s'.tasks[id]))
  }

  lemma NodeEvolves(s: State, step: Step)
    requires CanNode(s, step)
    ensures Evolves(s, step, ApplyNode(s, step))
  {
  }

  lemma BeginEvolves(s: State, step: Step)
    requires CanBegin(s, step)
    ensures Evolves(s, step, ApplyBegin(s, step))
  {
  }

  lemma AttemptEvolves(s: State, step: Step)
    requires CanAttempt(s, step)
    ensures Evolves(s, step, ApplyAttempt(s, step))
  {
  }

  lemma ReturnEvolves(s: State, step: Step)
    requires CanReturn(s, step)
    ensures Evolves(s, step, ApplyReturn(s, step))
  {
  }

  lemma CasEvolves(s: State, step: Step)
    requires CanCas(s, step)
    ensures Evolves(s, step, ApplyCas(s, step))
  {
  }

  lemma EndEvolves(s: State, step: Step)
    requires CanEnd(s, step)
    ensures Evolves(s, step, ApplyEnd(s, step))
  {
  }

  lemma PollEvolves(s: State, step: Step)
    requires CanPoll(s, step) || CanAdopt(s, step)
    ensures Evolves(s, step, if step.EndPoll? then ApplyAdopt(s, step) else ApplyPoll(s, step))
  {
  }

  lemma SeedEvolves(s: State, step: Step)
    requires CanSeed(s, step) || CanSeedWrite(s, step)
    ensures Evolves(s, step, if step.SeedWrite? then ApplySeedWrite(s, step) else ApplySeed(s, step))
  {
  }

  lemma StepEvolves(s: State, step: Step)
    requires Enabled(s, step)
    ensures Evolves(s, step, Apply(s, step))
  {
    match KindOf(step)
    case NodeKind => NodeEvolves(s, step);
    case BeginKind => BeginEvolves(s, step);
    case AttemptKind => AttemptEvolves(s, step);
    case ReturnKind => ReturnEvolves(s, step);
    case CasKind => CasEvolves(s, step);
    case EndKind => EndEvolves(s, step);
    case PollKind => PollEvolves(s, step);
    case AdoptKind => PollEvolves(s, step);
    case SeedKind => SeedEvolves(s, step);
    case SeedWriteKind => SeedEvolves(s, step);
  }

  // ----- What an attempt has settled stays settled -------------------------------------------

  /** A call past its choice of set: based, decided or stamped. */
  predicate Settled(t: Task) {
    t.Publish? && (t.phase.Based? || t.phase.Derived? || t.phase.Stamped?)
  }

  /** A step of call `id`'s own attempt. */
  predicate OwnAttempt(step: Step, id: nat) {
    KindOf(step) == AttemptKind && step.id == id
  }

  /** The same publish in the same phase, waited for or not. */
  predicate SamePhase(t: Task, t': Task) {
    t.Publish? && t'.Publish? && t' == t.(waited := t'.waited)
  }

  /** A settled call of `s'` was there before, in the phase it is in. */
  predicate LeavesSettled(s: State, s': State, id: nat) {
    id in s'.tasks && Settled(s'.tasks[id]) ==> id in s.tasks && SamePhase(s.tasks[id], s'.tasks[id])
  }

  lemma NodeLeavesSettled(s: State, step: Step, id: nat)
    requires CanNode(s, step)
    ensures LeavesSettled(s, ApplyNode(s, step), id)
  {
  }

  lemma BeginLeavesSettled(s: State, step: Step, id: nat)
    requires CanBegin(s, step)
    ensures LeavesSettled(s, ApplyBegin(s, step), id)
  {
  }

  lemma AttemptLeavesSettled(s: State, step: Step, id: nat)
    requires CanAttempt(s, step) && step.id != id
    ensures LeavesSettled(s, ApplyAttempt(s, step), id)
  {
  }

  lemma ReturnLeavesSettled(s: State, step: Step, id: nat)
    requires CanReturn(s, step)
    ensures LeavesSettled(s, ApplyReturn(s, step), id)
  {
  }

  lemma CasLeavesSettled(s: State, step: Step, id: nat)
    requires CanCas(s, step)
    ensures LeavesSettled(s, ApplyCas(s, step), id)
  {
  }

  lemma EndLeavesSettled(s: State, step: Step, id: nat)
    requires CanEnd(s, step)
    ensures LeavesSettled(s, ApplyEnd(s, step), id)
  {
  }

  lemma PollLeavesSettled(s: State, step: Step, id: nat)
    requires CanPoll(s, step)
    ensures LeavesSettled(s, ApplyPoll(s, step), id)
  {
  }

  lemma AdoptLeavesSettled(s: State, step: Step, id: nat)
    requires CanAdopt(s, step)
    ensures LeavesSettled(s, ApplyAdopt(s, step), id)
  {
  }

  lemma SeedLeavesSettled(s: State, step: Step, id: nat)
    requires CanSeed(s, step)
    ensures LeavesSettled(s, ApplySeed(s, step), id)
  {
  }

  lemma SeedWriteLeavesSettled(s: State, step: Step, id: nat)
    requires CanSeedWrite(s, step)
    ensures LeavesSettled(s, ApplySeedWrite(s, step), id)
  {
  }

  /** Only a call's own attempt gets it into a settled phase. */
  lemma StepLeavesSettled(s: State, step: Step, id: nat)
    requires Enabled(s, step) && !OwnAttempt(step, id)
    ensures LeavesSettled(s, Apply(s, step), id)
  {
    match KindOf(step)
    case NodeKind => NodeLeavesSettled(s, step, id);
    case BeginKind => BeginLeavesSettled(s, step, id);
    case AttemptKind => AttemptLeavesSettled(s, step, id);
    case ReturnKind => ReturnLeavesSettled(s, step, id);
    case CasKind => CasLeavesSettled(s, step, id);
    case EndKind => EndLeavesSettled(s, step, id);
    case PollKind => PollLeavesSettled(s, step, id);
    case AdoptKind => AdoptLeavesSettled(s, step, id);
    case SeedKind => SeedLeavesSettled(s, step, id);
    case SeedWriteKind => SeedWriteLeavesSettled(s, step, id);
  }
}
