/** Reserve, process, move, commit or roll back: the attachment upload protocol.

    Any number of uploads run at once. `Apply` is one atomic step of one of them, and a
    step that the protocol does not allow at that point changes nothing, so every
    sequence of steps is a possible interleaving. A commit releases the reservation
    before the rows of its files are inserted; in the gap between the two an upload
    counts nowhere. */
module AttachmentStorage {
  import opened Wrappers

  type UserID = string
  // Temporary names and random ids: only their identity matters.
  type Path = nat

  datatype Limits = Limits(
    maxInputMedia: nat, maxArchive: nat, maxOutputMedia: nat, maxFiles: int,
    maxUserStored: nat, maxUserDaily: nat, maxTotal: nat, minFree: nat)

  const NEW_ACCOUNT_GRACE := 86400
  const NEW_ACCOUNT_BYTES := 20 * 1024 * 1024

  function Min(a: nat, b: nat): nat {
    if a < b then a else b
  }

  function Max(a: nat, b: nat): nat {
    if a < b then b else a
  }

  // Less stored bytes and a daily limit for accounts that are less than a day old.
  function EffectiveLimits(base: Limits, createdAt: nat, now: nat): (r: Limits)
    ensures now - createdAt >= 86400 ==> r == base.(maxUserDaily := 0)
    ensures now - createdAt < 86400 ==> r.maxUserDaily == 20971520 && r.maxUserStored <= 20971520
    ensures r.maxUserStored == base.maxUserStored || (r.maxUserStored == 20971520 < base.maxUserStored)
    ensures r == base.(maxUserStored := r.maxUserStored, maxUserDaily := r.maxUserDaily)
  {
    if now < createdAt + NEW_ACCOUNT_GRACE then
      base.(maxUserStored := Min(base.maxUserStored, NEW_ACCOUNT_BYTES), maxUserDaily := NEW_ACCOUNT_BYTES)
    else base.(maxUserDaily := 0)
  }

  // ----- Processing one input -----

  datatype Kind = Image | Video | Audio | File | Archive

  // What the upload turned out to be: bytes received, detected kind, codec output size.
  datatype Content = Content(actual: nat, kind: Option<Kind>, archiveOk: bool, encoded: int)

  predicate TooLarge(l: Limits, size: int) {
    size <= 0 || (size > l.maxInputMedia && size > l.maxArchive)
  }

  // The size of the processed file, or None when processing fails.
  function ProcessedSize(l: Limits, declared: int, c: Content): Option<nat> {
    // at most one byte more than the larger limit is read
    var actual := Min(c.actual, Max(l.maxInputMedia, l.maxArchive) + 1);
    if TooLarge(l, declared) || TooLarge(l, actual) || c.kind.None? then None
    else match c.kind.value
      case Archive => if actual > l.maxArchive || !c.archiveOk then None else Some(actual)
      case Image => if 0 < c.encoded <= l.maxOutputMedia then Some(c.encoded) else None
      case Video => if 0 < c.encoded <= l.maxOutputMedia then Some(c.encoded) else None
      case Audio => Some(actual)
      case File => Some(actual)
  }

  // The largest processed file; a reservation counts only `maxArchive` for it.
  function LargestFile(l: Limits): nat {
    Max(Max(l.maxInputMedia, l.maxArchive), l.maxOutputMedia)
  }

  /** Which uploads are accepted, and with what size. Reading stops one byte after the larger
      limit, and that byte decides: what has been sent must not exceed it, whatever was
      declared. */
  lemma AcceptedIff(l: Limits, declared: int, c: Content)
    ensures var size := ProcessedSize(l, declared, c);
      var most := if l.maxInputMedia > l.maxArchive then l.maxInputMedia else l.maxArchive;
      && (size.Some? <==>
            && 1 <= declared <= most && 1 <= c.actual <= most && c.kind.Some?
            && (c.kind.value.Archive? ==> c.actual <= l.maxArchive && c.archiveOk)
            && (c.kind.value.Image? || c.kind.value.Video? ==> 1 <= c.encoded <= l.maxOutputMedia))
      && (size.Some? ==> size.value == if c.kind.value.Image? || c.kind.value.Video? then c.encoded else c.actual)
  {
  }

  lemma ProcessedFits(l: Limits, declared: int, c: Content)
    ensures var size := ProcessedSize(l, declared, c);
      size.Some? ==> 0 < size.value <= LargestFile(l)
  {
  }

  // ----- State -----

  datatype Stored = Stored(path: Path, size: nat)

  datatype Batch = Batch(owner: UserID, files: seq<Stored>, moved: seq<Path>, reserved: nat, closed: bool)

  // A batch starts Preparing and becomes Ready when every input is processed. Committed
  // is the gap: released, but not inserted yet.
  datatype Stage = Preparing | Ready | Committed | Inserted | RolledBack

  datatype Job = Job(batch: Batch, inputs: seq<int>, stage: Stage)

  datatype Row = Row(owner: UserID, size: nat, path: Path, createdAt: nat)

  // `orphans` are the files that the cleanup has found without a row and will remove.
  datatype State = State(
    reserved: int, jobs: seq<Job>, rows: seq<Row>, disk: set<Path>, users: map<UserID, nat>, clock: nat,
    orphans: set<Path>)

  datatype Step =
    | Open(owner: UserID, inputs: seq<int>, now: nat, free: Option<nat>)
    | Process(job: nat, content: Content, temp: Path)
    | Move(job: nat, ok: bool, destination: Path)
    | Release(job: nat)
    | Insert(job: nat, now: nat)
    | Rollback(job: nat)
    | DeleteRow(row: nat, unlink: bool)
    | FindOrphan(path: Path)
    | RemoveOrphan(path: Path)

  // One account, or everybody.
  type Scope = Option<UserID>

  predicate Of(who: Scope, owner: UserID) {
    who.None? || who.value == owner
  }

  function SumFor(rows: seq<Row>, who: Scope): nat {
    if rows == [] then 0
    else
      var last := rows[|rows| - 1];
      SumFor(rows[..|rows| - 1], who) + (if Of(who, last.owner) then last.size else 0)
  }

  function SumAll(rows: seq<Row>): nat {
    SumFor(rows, None)
  }

  function SumForOwner(rows: seq<Row>, owner: UserID): nat {
    SumFor(rows, Some(owner))
  }

  function SumCreatedSince(rows: seq<Row>, owner: UserID, since: int): nat {
    if rows == [] then 0
    else
      var last := rows[|rows| - 1];
      SumCreatedSince(rows[..|rows| - 1], owner, since) + (if last.owner == owner && last.createdAt >= since then last.size else 0)
  }

  // Service.reserve: the quotas and the free disk space allow `bytes` more.
  predicate CanReserve(l: Limits, s: State, owner: UserID, bytes: nat, now: nat, free: Option<nat>) {
    && owner in s.users
    && var effective := EffectiveLimits(l, s.users[owner], now);
      && (effective.maxUserDaily > 0 ==> SumCreatedSince(s.rows, owner, now - 86400) + bytes <= effective.maxUserDaily)
      && SumForOwner(s.rows, owner) + s.reserved + bytes <= effective.maxUserStored
      && SumAll(s.rows) + s.reserved + bytes <= effective.maxTotal
      && (free.Some? ==> free.value >= l.minFree + bytes)
  }

  function CreatedSince(rows: seq<Row>, since: int): seq<Row> {
    if rows == [] then []
    else
      var front, last := CreatedSince(rows[..|rows| - 1], since), rows[|rows| - 1];
      if last.createdAt >= since then front + [last] else front
  }

  lemma {:induction false} DailySum(rows: seq<Row>, owner: UserID, since: int)
    ensures SumCreatedSince(rows, owner, since) == SumForOwner(CreatedSince(rows, since), owner) <= SumForOwner(rows, owner)
  {
    if rows != [] {
      var front, last := rows[..|rows| - 1], rows[|rows| - 1];
      DailySum(front, owner, since);
      assert (CreatedSince(front, since) + [last])[..|CreatedSince(front, since)|] == CreatedSince(front, since);
    }
  }

  /** The daily limit refuses nothing that the stored quota would not refuse: it holds for
      new accounts alone, and their stored quota is no larger. */
  lemma DailyLimitIsImplied(l: Limits, s: State, owner: UserID, bytes: nat, now: nat, free: Option<nat>)
    requires s.reserved >= 0
    ensures CanReserve(l, s, owner, bytes, now, free) <==>
      && owner in s.users
      && SumForOwner(s.rows, owner) + s.reserved + bytes <= EffectiveLimits(l, s.users[owner], now).maxUserStored
      && SumAll(s.rows) + s.reserved + bytes <= l.maxTotal
      && (free.Some? ==> free.value - bytes >= l.minFree)
  {
    DailySum(s.rows, owner, now - 86400);
  }

  predicate InputsOk(l: Limits, inputs: seq<int>) {
    && 0 < |inputs| <= l.maxFiles
    && forall i :: 0 <= i < |inputs| ==> !TooLarge(l, inputs[i])
  }

  // What Prepare sets aside: `maxArchive` for every input, whatever it turns out to be.
  function Reservation(l: Limits, inputs: nat): nat {
    if inputs == 0 then 0 else Reservation(l, inputs - 1) + l.maxArchive
  }

  function Paths(b: Batch): set<Path> {
    (set f | f in b.files :: f.path) + (set p | p in b.moved)
  }

  // A path that no upload has used: CreateTemp and the random ids never repeat one.
  predicate Unused(s: State, path: Path) {
    path !in s.disk && forall j :: 0 <= j < |s.jobs| ==> path !in Paths(s.jobs[j].batch)
  }

  function Closed(b: Batch): Batch {
    b.(reserved := 0, closed := true)
  }

  // Batch.Rollback: remove every file of the batch, release once.
  function RollbackJob(s: State, j: nat): State
    requires j < |s.jobs|
  {
    var job := s.jobs[j];
    s.(reserved := s.reserved - job.batch.reserved, disk := s.disk - Paths(job.batch),
       jobs := s.jobs[j := Job(Closed(job.batch), job.inputs, RolledBack)])
  }

  // A successful Prepare appends this job.
  function NewJob(l: Limits, owner: UserID, inputs: seq<int>): Job {
    Job(Batch(owner, [], [], Reservation(l, |inputs|), false), inputs, Preparing)
  }

  function NewRows(b: Batch, now: nat): seq<Row>
    requires |b.moved| == |b.files|
  {
    seq(|b.files|, i requires 0 <= i < |b.files| => Row(b.owner, b.files[i].size, b.moved[i], now))
  }

  // The directory of stored files holds what uploads have moved there.
  predicate IsStored(s: State, path: Path) {
    path in s.disk && exists j :: 0 <= j < |s.jobs| && path in s.jobs[j].batch.moved
  }

  predicate HasRow(rows: seq<Row>, path: Path) {
    exists r :: 0 <= r < |rows| && rows[r].path == path
  }

  predicate AllMoved(b: Batch) {
    |b.moved| == |b.files|
  }

  function Apply(l: Limits, s: State, step: Step): State {
    match step
    case Open(owner, inputs, now, free) =>
      var bytes := Reservation(l, |inputs|);
      if now < s.clock then s
      else if !InputsOk(l, inputs) || !CanReserve(l, s, owner, bytes, now, free) then s.(clock := now)
      else s.(reserved := s.reserved + bytes, clock := now, jobs := s.jobs + [NewJob(l, owner, inputs)])
    case Process(j, content, temp) =>
      if !(j < |s.jobs| && s.jobs[j].stage.Preparing? && |s.jobs[j].batch.files| < |s.jobs[j].inputs|) then s
      else
        var job := s.jobs[j];
        var files := job.batch.files;
        var size := ProcessedSize(l, job.inputs[|files|], content);
        if size.None? then RollbackJob(s, j)
        else if !Unused(s, temp) then s
        else
          var stage := if |files| + 1 == |job.inputs| then Ready else Preparing;
          s.(disk := s.disk + {temp},
             jobs := s.jobs[j := Job(job.batch.(files := files + [Stored(temp, size.value)]), job.inputs, stage)])
    case Move(j, ok, destination) =>
      if !(j < |s.jobs| && s.jobs[j].stage.Ready? && |s.jobs[j].batch.moved| < |s.jobs[j].batch.files|) then s
      else if !ok then RollbackJob(s, j)
      else if !Unused(s, destination) then s
      else
        var job := s.jobs[j];
        var b := job.batch;
        s.(disk := s.disk - {b.files[|b.moved|].path} + {destination},
           jobs := s.jobs[j := job.(batch := b.(moved := b.moved + [destination]))])
    case Release(j) =>
      if !(j < |s.jobs| && s.jobs[j].stage.Ready? && AllMoved(s.jobs[j].batch)) then s
      else
        var job := s.jobs[j];
        s.(reserved := s.reserved - job.batch.reserved, jobs := s.jobs[j := Job(Closed(job.batch), job.inputs, Committed)])
    case Insert(j, now) =>
      if !(j < |s.jobs| && s.jobs[j].stage.Committed? && AllMoved(s.jobs[j].batch)) then s
      else
        var job := s.jobs[j];
        s.(rows := s.rows + NewRows(job.batch, now), jobs := s.jobs[j := job.(stage := Inserted)])
    case Rollback(j) =>
      if j < |s.jobs| && !s.jobs[j].stage.Inserted? then RollbackJob(s, j) else s
    case DeleteRow(r, unlink) =>
      if r >= |s.rows| then s
      else s.(rows := s.rows[..r] + s.rows[r + 1..], disk := if unlink then s.disk - {s.rows[r].path} else s.disk)
    case FindOrphan(path) =>
      if IsStored(s, path) && !HasRow(s.rows, path) then s.(orphans := s.orphans + {path}) else s
    case RemoveOrphan(path) =>
      if path in s.orphans then s.(disk := s.disk - {path}, orphans := s.orphans - {path}) else s
  }

  function Init(users: map<UserID, nat>): State {
    State(0, [], [], {}, users, 0, {})
  }

  function Run(l: Limits, users: map<UserID, nat>, steps: seq<Step>): State {
    if steps == [] then Init(users)
    else Apply(l, Run(l, users, steps[..|steps| - 1]), steps[|steps| - 1])
  }

  // ----- Reservation conservation -----

  function ReservedFor(jobs: seq<Job>, who: Scope): nat {
    if jobs == [] then 0
    else
      var last := jobs[|jobs| - 1].batch;
      ReservedFor(jobs[..|jobs| - 1], who) + (if Of(who, last.owner) then last.reserved else 0)
  }

  // A batch holds its whole reservation until it is closed, and nothing afterwards.
  ghost predicate JobOk(l: Limits, job: Job) {
    var b := job.batch;
    && b.reserved == (if b.closed then 0 else Reservation(l, |job.inputs|))
    && (b.closed <==> job.stage.Committed? || job.stage.Inserted? || job.stage.RolledBack?)
    && |b.moved| <= |b.files| <= |job.inputs|
    && (job.stage.Ready? || job.stage.Committed? || job.stage.Inserted? ==> |b.files| == |job.inputs|)
    && (job.stage.Committed? || job.stage.Inserted? ==> AllMoved(b))
    && (job.stage.Preparing? ==> |b.files| < |job.inputs| && b.moved == [])
    && forall i :: 0 <= i < |b.files| ==> b.files[i].size <= LargestFile(l)
  }

  ghost predicate Conserved(l: Limits, s: State) {
    s.reserved == ReservedFor(s.jobs, None) && forall j :: 0 <= j < |s.jobs| ==> JobOk(l, s.jobs[j])
  }

  lemma {:induction false} ReservedUpdate(jobs: seq<Job>, j: nat, job: Job)
    requires j < |jobs|
    ensures ReservedFor(jobs[j := job], None) == ReservedFor(jobs, None) - jobs[j].batch.reserved + job.batch.reserved
  {
    var n := |jobs| - 1;
    var after := jobs[j := job];
    if j == n {
      assert after[..n] == jobs[..n];
    } else {
      ReservedUpdate(jobs[..n], j, job);
      assert after[..n] == jobs[..n][j := job];
    }
  }

  // Steps on rows and files that leave all jobs alone.
  predicate IsCleanup(step: Step) {
    step.DeleteRow? || step.FindOrphan? || step.RemoveOrphan?
  }

  // A step that rewrites one job and moves `reserved` along with it.
  ghost predicate Rewrites(l: Limits, s: State, s': State, j: nat) {
    && j < |s.jobs| == |s'.jobs| && s'.jobs == s.jobs[j := s'.jobs[j]] && JobOk(l, s'.jobs[j])
    && s'.jobs[j].batch.owner == s.jobs[j].batch.owner && s'.jobs[j].inputs == s.jobs[j].inputs
    && s'.reserved == s.reserved - s.jobs[j].batch.reserved + s'.jobs[j].batch.reserved
    && s'.users == s.users && s'.clock == s.clock
  }

  lemma JobStep(l: Limits, s: State, step: Step)
    requires Conserved(l, s) && !step.Open? && !IsCleanup(step) && Apply(l, s, step) != s
    ensures Rewrites(l, s, Apply(l, s, step), step.job)
  {
    var job := s.jobs[step.job];
    assert JobOk(l, job);
    if step.Process? {
      ProcessedFits(l, job.inputs[|job.batch.files|], step.content);
    }
  }

  lemma ReservedAppend(jobs: seq<Job>, job: Job)
    ensures ReservedFor(jobs + [job], None) == ReservedFor(jobs, None) + job.batch.reserved
  {
    assert (jobs + [job])[..|jobs|] == jobs;
  }

  lemma OpenStep(l: Limits, s: State, step: Step)
    requires Conserved(l, s) && step.Open?
    ensures Conserved(l, Apply(l, s, step))
  {
    var s', job := Apply(l, s, step), NewJob(l, step.owner, step.inputs);
    if s'.jobs == s.jobs + [job] {
      ReservedAppend(s.jobs, job);
      forall j | 0 <= j < |s'.jobs|
        ensures JobOk(l, s'.jobs[j])
      {
        assert j < |s.jobs| ==> JobOk(l, s.jobs[j]);
      }
    }
  }

  lemma CleanupConserved(l: Limits, s: State, step: Step)
    requires Conserved(l, s) && IsCleanup(step)
    ensures Conserved(l, Apply(l, s, step))
  {
    assert Apply(l, s, step).jobs == s.jobs && Apply(l, s, step).reserved == s.reserved;
  }

  lemma RewriteConserved(l: Limits, s: State, s': State, j: nat)
    requires Conserved(l, s) && Rewrites(l, s, s', j)
    ensures Conserved(l, s')
  {
    ReservedUpdate(s.jobs, j, s'.jobs[j]);
  }

  lemma ConservedStep(l: Limits, s: State, step: Step)
    requires Conserved(l, s)
    ensures Conserved(l, Apply(l, s, step))
  {
    if step.Open? {
      OpenStep(l, s, step);
    } else if IsCleanup(step) {
      CleanupConserved(l, s, step);
    } else if Apply(l, s, step) != s {
      JobStep(l, s, step);
      RewriteConserved(l, s, Apply(l, s, step), step.job);
    }
  }

  /** In every interleaving the service's reservation is the sum of what the open
      batches hold: it is never negative, and a batch gives its whole share back
      exactly when it closes. */
  lemma {:induction false} ReservationConserved(l: Limits, users: map<UserID, nat>, steps: seq<Step>)
    ensures Conserved(l, Run(l, users, steps))
  {
    if steps != [] {
      var n := |steps| - 1;
      ReservationConserved(l, users, steps[..n]);
      ConservedStep(l, Run(l, users, steps[..n]), steps[n]);
    }
  }
}
