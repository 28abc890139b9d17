/** Exactly when the plain quotas hold, for an account and for all files: runs that exceed
    them are built from one-file uploads. */
module AttachmentQuota {
  import opened Wrappers
  import opened AttachmentStorage
  import opened AttachmentWeights

  // ----- Exactly when the plain quota holds -----

  // Nothing is reserved, and no path from `next` on is used.
  ghost predicate Fresh(s: State, next: Path) {
    && s.reserved == 0
    && (forall p :: p in s.disk ==> p < next)
    && (forall j, p :: 0 <= j < |s.jobs| && p in Paths(s.jobs[j].batch) ==> p < next)
  }

  // An account old enough to have its full quota, and quotas that admit one more file.
  predicate Room(l: Limits, s: State, owner: UserID, now: nat) {
    && l.maxFiles > 0 && l.maxArchive > 0
    && SumAll(s.rows) + l.maxArchive <= l.maxTotal && SumForOwner(s.rows, owner) + l.maxArchive <= l.maxUserStored
    && owner in s.users && now >= s.clock && now >= s.users[owner] + NEW_ACCOUNT_GRACE
  }

  function WithJob(s: State, reserved: nat, now: nat, disk: set<Path>, job: Job): State {
    s.(reserved := reserved, clock := now, disk := disk, jobs := s.jobs + [job])
  }

  // The job of a one-file upload before its file has been moved, after, and in the gap.
  function OneFile(l: Limits, owner: UserID, size: nat, temp: Path, moved: seq<Path>): Job {
    Job(Batch(owner, [Stored(temp, size)], moved, l.maxArchive, false), [1], Ready)
  }

  function GapJob(owner: UserID, size: nat, temp: Path): Job {
    Job(Batch(owner, [Stored(temp, size)], [temp + 1], 0, true), [1], Committed)
  }

  function Parked(s: State, owner: UserID, size: nat, now: nat, next: Path): State {
    WithJob(s, 0, now, s.disk + {next + 1}, GapJob(owner, size, next))
  }

  lemma UploadOpens(l: Limits, s: State, owner: UserID, now: nat, next: Path)
    requires Fresh(s, next) && Room(l, s, owner, now)
    ensures Apply(l, s, Open(owner, [1], now, Some(l.minFree + l.maxArchive))) == WithJob(s, l.maxArchive, now, s.disk, NewJob(l, owner, [1]))
  {
    assert Reservation(l, 1) == l.maxArchive;
  }

  lemma UploadProcesses(l: Limits, s: State, owner: UserID, now: nat, content: Content, next: Path)
    requires Fresh(s, next) && ProcessedSize(l, 1, content).Some?
    ensures Apply(l, WithJob(s, l.maxArchive, now, s.disk, NewJob(l, owner, [1])), Process(|s.jobs|, content, next))
         == WithJob(s, l.maxArchive, now, s.disk + {next}, OneFile(l, owner, ProcessedSize(l, 1, content).value, next, []))
  {
    var s1 := WithJob(s, l.maxArchive, now, s.disk, NewJob(l, owner, [1]));
    assert Reservation(l, 1) == l.maxArchive;
    assert Unused(s1, next) && [] + [Stored(next, ProcessedSize(l, 1, content).value)] == [Stored(next, ProcessedSize(l, 1, content).value)];
    assert s1.jobs[|s.jobs| := OneFile(l, owner, ProcessedSize(l, 1, content).value, next, [])]
        == s.jobs + [OneFile(l, owner, ProcessedSize(l, 1, content).value, next, [])];
  }

  lemma UploadMoves(l: Limits, s: State, owner: UserID, now: nat, size: nat, next: Path)
    requires Fresh(s, next)
    ensures Apply(l, WithJob(s, l.maxArchive, now, s.disk + {next}, OneFile(l, owner, size, next, [])), Move(|s.jobs|, true, next + 1))
         == WithJob(s, l.maxArchive, now, s.disk + {next + 1}, OneFile(l, owner, size, next, [next + 1]))
  {
    var s2 := WithJob(s, l.maxArchive, now, s.disk + {next}, OneFile(l, owner, size, next, []));
    assert Unused(s2, next + 1) && [] + [next + 1] == [next + 1];
    assert s.disk + {next} - {next} + {next + 1} == s.disk + {next + 1};
    assert s2.jobs[|s.jobs| := OneFile(l, owner, size, next, [next + 1])] == s.jobs + [OneFile(l, owner, size, next, [next + 1])];
  }

  lemma UploadReleases(l: Limits, s: State, owner: UserID, now: nat, size: nat, next: Path)
    ensures Apply(l, WithJob(s, l.maxArchive, now, s.disk + {next + 1}, OneFile(l, owner, size, next, [next + 1])), Release(|s.jobs|))
         == Parked(s, owner, size, now, next)
  {
    var s3 := WithJob(s, l.maxArchive, now, s.disk + {next + 1}, OneFile(l, owner, size, next, [next + 1]));
    assert s3.jobs[|s.jobs| := GapJob(owner, size, next)] == s.jobs + [GapJob(owner, size, next)];
  }

  lemma RunStep(l: Limits, users: map<UserID, nat>, steps: seq<Step>, step: Step) returns (more: seq<Step>)
    ensures Run(l, users, more) == Apply(l, Run(l, users, steps), step)
    ensures forall gap: nat ::
      Calm(l, users, steps, None, gap) && (step.Open? ==> GapBytes(Run(l, users, steps).jobs, None) <= gap) ==> Calm(l, users, more, None, gap)
  {
    more := steps + [step];
    assert more[..|steps|] == steps;
  }

  // A one-file upload up to the gap.
  lemma ToGap(l: Limits, users: map<UserID, nat>, steps: seq<Step>, owner: UserID, now: nat, content: Content, next: Path)
    returns (more: seq<Step>)
    requires var s := Run(l, users, steps); Fresh(s, next) && Room(l, s, owner, now)
    requires ProcessedSize(l, 1, content).Some?
    ensures Run(l, users, more) == Parked(Run(l, users, steps), owner, ProcessedSize(l, 1, content).value, now, next)
    ensures forall gap: nat ::
      Calm(l, users, steps, None, gap) && GapBytes(Run(l, users, steps).jobs, None) <= gap ==> Calm(l, users, more, None, gap)
  {
    var s := Run(l, users, steps);
    var j, size := |s.jobs|, ProcessedSize(l, 1, content).value;
    UploadOpens(l, s, owner, now, next);
    more := RunStep(l, users, steps, Open(owner, [1], now, Some(l.minFree + l.maxArchive)));
    UploadProcesses(l, s, owner, now, content, next);
    more := RunStep(l, users, more, Process(j, content, next));
    UploadMoves(l, s, owner, now, size, next);
    more := RunStep(l, users, more, Move(j, true, next + 1));
    UploadReleases(l, s, owner, now, size, next);
    more := RunStep(l, users, more, Release(j));
  }

  lemma ParkedFresh(s: State, owner: UserID, size: nat, now: nat, next: Path)
    requires Fresh(s, next)
    ensures Fresh(Parked(s, owner, size, now, next), next + 2)
  {
    var t := Parked(s, owner, size, now, next);
    forall j, p | 0 <= j < |t.jobs| && p in Paths(t.jobs[j].batch)
      ensures p < next + 2
    {
      assert j < |s.jobs| ==> t.jobs[j] == s.jobs[j];
    }
  }

  // `owner` has `amount` bytes more stored, and nobody else.
  ghost predicate Added(rows: seq<Row>, rows': seq<Row>, owner: UserID, amount: nat) {
    forall who: Scope :: SumFor(rows', who) == SumFor(rows, who) + if Of(who, owner) then amount else 0
  }

  lemma InsertOne(l: Limits, s: State, j: nat, owner: UserID, size: nat, temp: Path, now: nat)
    requires j < |s.jobs| && s.jobs[j] == GapJob(owner, size, temp)
    ensures var s' := Apply(l, s, Insert(j, now));
      && s' == s.(rows := s'.rows, jobs := s.jobs[j := s.jobs[j].(stage := Inserted)])
      && Added(s.rows, s'.rows, owner, size)
  {
    var rows := NewRows(s.jobs[j].batch, now);
    forall who: Scope
      ensures SumFor(s.rows + rows, who) == SumFor(s.rows, who) + if Of(who, owner) then size else 0
    {
      SumConcat(s.rows, rows, who);
      RowBytes(rows, s.jobs[j].batch.files, owner, who);
      assert FileBytes([Stored(temp, size)]) == size;
    }
  }

  // A run with at most `gap` bytes in the gap, after which nothing is reserved.
  ghost predicate Settled(l: Limits, users: map<UserID, nat>, steps: seq<Step>, next: Path, now: nat, gap: nat) {
    var s := Run(l, users, steps);
    Calm(l, users, steps, None, gap) && GapBytes(s.jobs, None) <= gap && Fresh(s, next) && s.clock <= now
  }

  lemma GapAppend(jobs: seq<Job>, job: Job)
    ensures GapBytes(jobs + [job], None) == GapBytes(jobs, None) + if job.stage.Committed? then FileBytes(job.batch.files) else 0
  {
    assert (jobs + [job])[..|jobs|] == jobs;
  }

  // A one-file upload, started when nothing is reserved, stores its file.
  lemma UploadOne(l: Limits, users: map<UserID, nat>, steps: seq<Step>, owner: UserID, now: nat, content: Content, next: Path, gap: nat)
    returns (more: seq<Step>)
    requires Settled(l, users, steps, next, now, gap) && Room(l, Run(l, users, steps), owner, now)
    requires ProcessedSize(l, 1, content).Some?
    ensures Settled(l, users, more, next + 2, now, gap) && Run(l, users, steps).jobs <= Run(l, users, more).jobs
    ensures Added(Run(l, users, steps).rows, Run(l, users, more).rows, owner, ProcessedSize(l, 1, content).value)
  {
    var s, size := Run(l, users, steps), ProcessedSize(l, 1, content).value;
    more := ToGap(l, users, steps, owner, now, content, next);
    var t := Run(l, users, more);
    ParkedFresh(s, owner, size, now, next);
    InsertOne(l, t, |s.jobs|, owner, size, next, now);
    more := RunStep(l, users, more, Insert(|s.jobs|, now));
    SettledAfter(s.jobs, t, Run(l, users, more), next + 2);
  }

  lemma SettledAfter(before: seq<Job>, t: State, t': State, next: Path)
    requires Fresh(t, next) && |t.jobs| == |before| + 1 && before <= t.jobs
    requires t' == t.(rows := t'.rows, jobs := t.jobs[|before| := t.jobs[|before|].(stage := Inserted)])
    ensures Fresh(t', next) && GapBytes(t'.jobs, None) == GapBytes(before, None) && before <= t'.jobs
  {
    var job := t.jobs[|before|].(stage := Inserted);
    assert t'.jobs == before + [job];
    GapAppend(before, job);
    assert forall i :: 0 <= i < |t.jobs| ==> t'.jobs[i].batch == t.jobs[i].batch;
  }

  // Byte by byte, an account can store any amount that leaves room for a reservation.
  lemma {:induction false} FillMore(l: Limits, users: map<UserID, nat>, steps: seq<Step>, next: Path, owner: UserID, amount: nat, now: nat, gap: nat)
    returns (more: seq<Step>, next': Path)
    requires Settled(l, users, steps, next, now, gap) && l.maxFiles > 0 && l.maxArchive > 0
    requires owner in users && now >= users[owner] + NEW_ACCOUNT_GRACE
    requires var rows := Run(l, users, steps).rows;
      SumAll(rows) + amount + l.maxArchive <= l.maxTotal && SumForOwner(rows, owner) + amount + l.maxArchive <= l.maxUserStored
    ensures Settled(l, users, more, next', now, gap) && Run(l, users, steps).jobs <= Run(l, users, more).jobs
    ensures Added(Run(l, users, steps).rows, Run(l, users, more).rows, owner, amount)
  {
    if amount == 0 {
      more, next' := steps, next;
    } else {
      more, next' := FillMore(l, users, steps, next, owner, amount - 1, now, gap);
      RunKeepsUsers(l, users, more);
      more := UploadOne(l, users, more, owner, now, Content(1, Some(File), true, 0), next', gap);
      next' := next' + 2;
    }
  }

  // An upload that yields the largest file the limits admit.
  function LargestContent(l: Limits): Content {
    if l.maxOutputMedia > Max(l.maxInputMedia, l.maxArchive) then Content(1, Some(Image), true, l.maxOutputMedia)
    else Content(Max(l.maxInputMedia, l.maxArchive), Some(File), true, 0)
  }

  // One more upload, of the largest file, on top of what leaves room for a reservation.
  lemma TopUp(l: Limits, users: map<UserID, nat>, steps: seq<Step>, next: Path, owner: UserID, now: nat, gap: nat)
    returns (more: seq<Step>)
    requires Settled(l, users, steps, next, now, gap) && l.maxFiles > 0 && l.maxArchive > 0
    requires owner in users && now >= users[owner] + NEW_ACCOUNT_GRACE
    requires var rows := Run(l, users, steps).rows;
      SumAll(rows) + l.maxArchive <= l.maxTotal && SumForOwner(rows, owner) + l.maxArchive <= l.maxUserStored
    ensures Settled(l, users, more, next + 2, now, gap) && Run(l, users, steps).jobs <= Run(l, users, more).jobs
    ensures Added(Run(l, users, steps).rows, Run(l, users, more).rows, owner, LargestFile(l))
  {
    RunKeepsUsers(l, users, steps);
    assert ProcessedSize(l, 1, LargestContent(l)) == Some(LargestFile(l));
    more := UploadOne(l, users, steps, owner, now, LargestContent(l), next, gap);
  }

  lemma {:induction false} CalmForAll(l: Limits, users: map<UserID, nat>, steps: seq<Step>, who: Scope, gap: nat)
    requires Calm(l, users, steps, None, gap)
    ensures Calm(l, users, steps, who, gap)
  {
    if steps != [] {
      CalmForAll(l, users, steps[..|steps| - 1], who, gap);
      GapWithin(Run(l, users, steps[..|steps| - 1]).jobs, who);
    }
  }

  // With at most `gap` bytes in the gap, what the scope stores stays within `quota`.
  ghost predicate HoldsFor(l: Limits, users: map<UserID, nat>, who: Scope, quota: nat, gap: nat) {
    forall steps: seq<Step> :: Calm(l, users, steps, who, gap) ==> SumFor(Run(l, users, steps).rows, who) <= quota
  }

  function FullQuota(l: Limits, who: Scope): nat {
    if who.None? then l.maxTotal else l.maxUserStored
  }

  lemma HoldsWithoutExcess(l: Limits, users: map<UserID, nat>, who: Scope)
    requires (who.Some? ==> who.value in users) && 0 < l.maxArchive && LargestFile(l) <= l.maxArchive
    ensures HoldsFor(l, users, who, FullQuota(l, who), 0)
  {
    forall steps: seq<Step> | Calm(l, users, steps, who, 0)
      ensures SumFor(Run(l, users, steps).rows, who) <= FullQuota(l, who)
    {
      QuotaWithoutExcess(l, users, steps, who);
      RunKeepsUsers(l, users, steps);
      if who.Some? {
        var s := Run(l, users, steps);
        QuotaGrows(l, s.users[who.value], s.clock, s.clock);
      }
    }
  }

  // A run with nothing stored yet: with one byte in the gap if that is admitted.
  lemma Prepared(l: Limits, users: map<UserID, nat>, owner: UserID, now: nat, gap: nat) returns (steps: seq<Step>, next: Path)
    requires owner in users && now >= users[owner] + NEW_ACCOUNT_GRACE && l.maxFiles > 0
    requires 0 < l.maxArchive <= l.maxUserStored && l.maxArchive <= l.maxTotal
    ensures Settled(l, users, steps, next, now, gap) && Run(l, users, steps).rows == []
    ensures gap > 0 ==> Run(l, users, steps).jobs == [GapJob(owner, 1, 0)]
  {
    steps, next := [], 0;
    if gap > 0 {
      RunKeepsUsers(l, users, []);
      assert ProcessedSize(l, 1, Content(1, Some(File), true, 0)) == Some(1);
      steps := ToGap(l, users, [], owner, now, Content(1, Some(File), true, 0), 0);
      ParkedFresh(Init(users), owner, 1, now, 0);
      next := 2;
      assert FileBytes([Stored(0, 1)]) == 1;
    }
  }

  // The bytes in the gap are inserted last.
  lemma Finished(l: Limits, users: map<UserID, nat>, steps: seq<Step>, owner: UserID, gap: nat) returns (more: seq<Step>)
    requires Calm(l, users, steps, None, gap) && gap > 0 && [GapJob(owner, 1, 0)] <= Run(l, users, steps).jobs
    ensures Calm(l, users, more, None, gap) && Added(Run(l, users, steps).rows, Run(l, users, more).rows, owner, 1)
  {
    assert Run(l, users, steps).jobs[0] == [GapJob(owner, 1, 0)][0];
    InsertOne(l, Run(l, users, steps), 0, owner, 1, 0, 0);
    more := RunStep(l, users, steps, Insert(0, 0));
  }

  // Fill up, top up, and insert what is in the gap: that exceeds the quota of the scope.
  lemma Exceeds(l: Limits, users: map<UserID, nat>, steps: seq<Step>, next: Path, owner: UserID, parked: UserID, now: nat, who: Scope, gap: nat)
    returns (more: seq<Step>)
    requires Settled(l, users, steps, next, now, gap) && l.maxFiles > 0 && 0 < l.maxArchive
    requires owner in users && now >= users[owner] + NEW_ACCOUNT_GRACE && Of(who, owner) && Of(who, parked)
    requires LargestFile(l) > l.maxArchive || gap > 0
    requires gap > 0 ==> [GapJob(parked, 1, 0)] <= Run(l, users, steps).jobs
    requires var rows := Run(l, users, steps).rows;
      SumAll(rows) + l.maxArchive <= l.maxTotal && SumForOwner(rows, owner) + l.maxArchive <= l.maxUserStored
    requires SumFor(Run(l, users, steps).rows, who) + l.maxArchive == FullQuota(l, who)
    ensures Calm(l, users, more, who, gap) && SumFor(Run(l, users, more).rows, who) > FullQuota(l, who)
  {
    more := TopUp(l, users, steps, next, owner, now, gap);
    if gap > 0 {
      more := Finished(l, users, more, parked, gap);
    }
    CalmForAll(l, users, more, who, gap);
  }

  /** An account stays within its quota if and only if no processed file can be larger than
      what is reserved for it and nothing lies in the gap when the account opens an upload. */
  lemma OwnerQuotaIff(l: Limits, users: map<UserID, nat>, owner: UserID, gap: nat)
    requires owner in users && l.maxFiles > 0 && 0 < l.maxArchive <= l.maxUserStored <= l.maxTotal
    ensures HoldsFor(l, users, Some(owner), l.maxUserStored, gap) <==> LargestFile(l) <= l.maxArchive && gap == 0
  {
    if LargestFile(l) <= l.maxArchive && gap == 0 {
      HoldsWithoutExcess(l, users, Some(owner));
    } else {
      var now := users[owner] + NEW_ACCOUNT_GRACE;
      var steps, next := Prepared(l, users, owner, now, gap);
      steps, next := FillMore(l, users, steps, next, owner, l.maxUserStored - l.maxArchive, now, gap);
      assert SumFor(Run(l, users, steps).rows, None) == l.maxUserStored - l.maxArchive;
      steps := Exceeds(l, users, steps, next, owner, owner, now, Some(owner), gap);
    }
  }

  ghost predicate Distinct(owners: seq<UserID>) {
    forall i, j :: 0 <= i < j < |owners| ==> owners[i] != owners[j]
  }

  ghost predicate Old(users: map<UserID, nat>, owners: seq<UserID>, now: nat) {
    forall i :: 0 <= i < |owners| ==> owners[i] in users && now >= users[owners[i]] + NEW_ACCOUNT_GRACE
  }

  lemma {:induction false} OldEnough(users: map<UserID, nat>, owners: seq<UserID>) returns (now: nat)
    requires forall i :: 0 <= i < |owners| ==> owners[i] in users
    ensures Old(users, owners, now)
  {
    if owners == [] {
      now := 0;
    } else {
      var n := |owners| - 1;
      var front := OldEnough(users, owners[..n]);
      now := Max(front, users[owners[n]] + NEW_ACCOUNT_GRACE);
      assert forall i :: 0 <= i < n ==> owners[..n][i] == owners[i];
    }
  }

  // Nobody but these accounts has anything stored.
  ghost predicate OnlyBy(rows: seq<Row>, owners: seq<UserID>) {
    forall o: UserID :: o !in owners ==> SumForOwner(rows, o) == 0
  }

  // Accounts that fill up one after the other can store any amount together.
  lemma {:induction false} FillAll(l: Limits, users: map<UserID, nat>, base: seq<Step>, start: Path, owners: seq<UserID>, amount: nat, now: nat, gap: nat)
    returns (steps: seq<Step>, next: Path)
    requires Settled(l, users, base, start, now, gap) && Run(l, users, base).rows == []
    requires owners != [] && Distinct(owners) && Old(users, owners, now) && l.maxFiles > 0
    requires 0 < l.maxArchive <= l.maxUserStored && amount + l.maxArchive <= l.maxTotal
    requires amount <= Times(|owners|, l.maxUserStored - l.maxArchive)
    ensures Settled(l, users, steps, next, now, gap) && Run(l, users, base).jobs <= Run(l, users, steps).jobs
    ensures var rows := Run(l, users, steps).rows;
      && SumAll(rows) == amount && OnlyBy(rows, owners)
      && SumForOwner(rows, owners[|owners| - 1]) + l.maxArchive <= l.maxUserStored
  {
    var n := |owners| - 1;
    var front, last := owners[..n], owners[n];
    var first := Min(amount, Times(n, l.maxUserStored - l.maxArchive));
    steps, next := base, start;
    if n > 0 {
      steps, next := FillAll(l, users, base, start, front, first, now, gap);
    }
    var before := Run(l, users, steps).rows;
    assert last !in front;
    steps, next := FillMore(l, users, steps, next, last, amount - first, now, gap);
    var rows := Run(l, users, steps).rows;
    forall o: UserID | o !in owners
      ensures SumForOwner(rows, o) == 0
    {
      assert last in owners && o !in front;
      assert SumFor(rows, Some(o)) == SumFor(before, Some(o));
    }
  }

  /** Everything stored stays within the total quota if and only if no processed file can be
      larger than what is reserved for it and nothing lies in the gap when an upload is
      opened, provided there are enough accounts to fill the total at all. */
  lemma TotalQuotaIff(l: Limits, users: map<UserID, nat>, owners: seq<UserID>, gap: nat)
    requires owners != [] && Distinct(owners) && (forall i :: 0 <= i < |owners| ==> owners[i] in users) && l.maxFiles > 0
    requires 0 < l.maxArchive <= l.maxUserStored && l.maxArchive <= l.maxTotal
    requires l.maxTotal - l.maxArchive <= Times(|owners|, l.maxUserStored - l.maxArchive)
    ensures HoldsFor(l, users, None, l.maxTotal, gap) <==> LargestFile(l) <= l.maxArchive && gap == 0
  {
    if LargestFile(l) <= l.maxArchive && gap == 0 {
      HoldsWithoutExcess(l, users, None);
    } else {
      var last := owners[|owners| - 1];
      var now := OldEnough(users, owners);
      var base, start := Prepared(l, users, last, now, gap);
      var steps, next := FillAll(l, users, base, start, owners, l.maxTotal - l.maxArchive, now, gap);
      steps := Exceeds(l, users, steps, next, last, last, now, None, gap);
    }
  }

  // The limits that ship: 10 MiB of media or 5 MiB of archive in, 1 MiB of media out, three
  // files; 50 MiB and 20 MiB a day for an account, 5 GiB in all, 5 GiB of disk kept free.
  const SHIPPED := Limits(10485760, 5242880, 1048576, 3, 52428800, 20971520, 5368709120, 5368709120)

  // When no file is larger than two reservations.
  lemma {:induction false} TwiceTheQuota(l: Limits, users: map<UserID, nat>, steps: seq<Step>, owner: UserID, gap: nat)
    requires owner in users && Calm(l, users, steps, Some(owner), gap) && l.maxArchive > 0 && LargestFile(l) <= 2 * l.maxArchive
    ensures SumFor(Run(l, users, steps).rows, Some(owner)) <= 2 * l.maxUserStored + gap
  {
    CalmBound(l, users, steps, Some(owner), gap);
    RunKeepsUsers(l, users, steps);
    var s := Run(l, users, steps);
    var a, quota := l.maxArchive, QuotaOf(l, s, Some(owner));
    QuotaGrows(l, s.users[owner], s.clock, s.clock);
    TimesFaster(quota, LargestFile(l), 2 * a);
    TimesTwice(quota, a);
    TimesAdds(2 * quota, gap, a);
    TimesCancel(SumFor(s.rows, Some(owner)), 2 * quota + gap, a);
  }

  lemma {:induction false} TimesTwice(n: nat, gap: nat)
    ensures Times(n, 2 * gap) == Times(2 * n, gap)
  {
    if n > 0 {
      TimesTwice(n - 1, gap);
    }
  }

  /** With the shipped limits an account can exceed its 50 MiB even on calm runs, but never
      by more than as much again and what lies in the gap. */
  lemma ShippedLimits(users: map<UserID, nat>, owner: UserID, gap: nat)
    requires owner in users
    ensures !HoldsFor(SHIPPED, users, Some(owner), 52428800, gap) && HoldsFor(SHIPPED, users, Some(owner), 104857600 + gap, gap)
  {
    OwnerQuotaIff(SHIPPED, users, owner, gap);
    forall steps: seq<Step> | Calm(SHIPPED, users, steps, Some(owner), gap)
      ensures SumFor(Run(SHIPPED, users, steps).rows, Some(owner)) <= 104857600 + gap
    {
      TwiceTheQuota(SHIPPED, users, steps, owner, gap);
    }
  }

  // ----- Runs without a limit on the gap -----

  predicate InGap(job: Job, owner: UserID) {
    |job.batch.files| == 1 && job == GapJob(owner, 1, job.batch.files[0].path)
  }

  // From job `from` on, uploads of one byte wait in the gap.
  ghost predicate Waiting(s: State, from: nat, owner: UserID) {
    forall j :: from <= j < |s.jobs| ==> InGap(s.jobs[j], owner)
  }

  lemma {:induction false} FillGap(l: Limits, users: map<UserID, nat>, owner: UserID, n: nat) returns (steps: seq<Step>, next: Path)
    requires owner in users && l.maxFiles > 0 && 0 < l.maxArchive <= l.maxUserStored && l.maxArchive <= l.maxTotal
    ensures var s := Run(l, users, steps);
      && Fresh(s, next) && s.rows == [] && s.clock <= users[owner] + NEW_ACCOUNT_GRACE
      && |s.jobs| == n && Waiting(s, 0, owner)
  {
    if n == 0 {
      steps, next := [], 0;
    } else {
      steps, next := FillGap(l, users, owner, n - 1);
      var s, now := Run(l, users, steps), users[owner] + NEW_ACCOUNT_GRACE;
      RunKeepsUsers(l, users, steps);
      steps := ToGap(l, users, steps, owner, now, Content(1, Some(File), true, 0), next);
      ParkedFresh(s, owner, 1, now, next);
      var t := Run(l, users, steps);
      assert forall j :: 0 <= j < n - 1 ==> t.jobs[j] == s.jobs[j];
      next := next + 2;
    }
  }

  // One upload leaves the gap.
  lemma DrainOne(l: Limits, users: map<UserID, nat>, steps: seq<Step>, owner: UserID, n: nat) returns (more: seq<Step>)
    requires var s := Run(l, users, steps); n < |s.jobs| && Waiting(s, n, owner)
    ensures var (s, t) := (Run(l, users, steps), Run(l, users, more));
      |t.jobs| == |s.jobs| && Waiting(t, n + 1, owner) && SumForOwner(t.rows, owner) == SumForOwner(s.rows, owner) + 1
  {
    var s := Run(l, users, steps);
    InsertOne(l, s, n, owner, 1, s.jobs[n].batch.files[0].path, 0);
    more := RunStep(l, users, steps, Insert(n, 0));
    assert forall j :: n < j < |s.jobs| ==> Run(l, users, more).jobs[j] == s.jobs[j];
  }

  lemma {:induction false} DrainGap(l: Limits, users: map<UserID, nat>, steps: seq<Step>, owner: UserID, n: nat) returns (more: seq<Step>)
    requires var s := Run(l, users, steps); s.rows == [] && n <= |s.jobs| && Waiting(s, 0, owner)
    ensures var s := Run(l, users, more);
      |s.jobs| == |Run(l, users, steps).jobs| && Waiting(s, n, owner) && SumForOwner(s.rows, owner) == n
  {
    more := steps;
    if n > 0 {
      more := DrainGap(l, users, steps, owner, n - 1);
      more := DrainOne(l, users, more, owner, n - 1);
    }
  }

  /** Without a limit on the gap nothing bounds what an account stores: uploads that open
      while others are in the gap are admitted again and again. */
  lemma GapIsUnbounded(l: Limits, users: map<UserID, nat>, owner: UserID, n: nat) returns (steps: seq<Step>)
    requires owner in users && l.maxFiles > 0 && 0 < l.maxArchive <= l.maxUserStored && l.maxArchive <= l.maxTotal
    ensures SumForOwner(Run(l, users, steps).rows, owner) == n
  {
    var next;
    steps, next := FillGap(l, users, owner, n);
    steps := DrainGap(l, users, steps, owner, n);
  }
}
