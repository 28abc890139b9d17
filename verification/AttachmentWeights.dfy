/** What the upload protocol stores, weighed against the quotas. */
module AttachmentWeights {
  import opened Wrappers
  import opened AttachmentStorage

  // ----- The weighted quota bound -----

  lemma {:induction false} SumConcat(a: seq<Row>, b: seq<Row>, who: Scope)
    ensures SumFor(a + b, who) == SumFor(a, who) + SumFor(b, who)
  {
    if b == [] {
      assert a + b == a;
    } else {
      var n := |b| - 1;
      assert (a + b)[..|a| + n] == a + b[..n];
      SumConcat(a, b[..n], who);
    }
  }

  lemma SumWithout(rows: seq<Row>, r: nat, who: Scope)
    requires r < |rows|
    ensures SumFor(rows[..r] + rows[r + 1..], who) <= SumFor(rows, who)
  {
    var a, b, c := rows[..r], [rows[r]], rows[r + 1..];
    assert rows == a + (b + c);
    SumConcat(a, c, who);
    SumConcat(a, b + c, who);
    SumConcat(b, c, who);
  }

  function FileBytes(files: seq<Stored>): nat {
    if files == [] then 0 else FileBytes(files[..|files| - 1]) + files[|files| - 1].size
  }

  lemma {:induction false} RowBytes(rows: seq<Row>, files: seq<Stored>, owner: UserID, who: Scope)
    requires |rows| == |files| && forall i :: 0 <= i < |rows| ==> rows[i].size == files[i].size && rows[i].owner == owner
    ensures SumFor(rows, who) == if Of(who, owner) then FileBytes(files) else 0
  {
    if rows != [] {
      RowBytes(rows[..|rows| - 1], files[..|rows| - 1], owner, who);
    }
  }

  lemma {:induction false} FreshWeight(a: nat, m: nat, stored: nat, reserved: nat, bytes: nat, quota: nat)
    requires a <= m && stored + reserved + bytes <= quota
    ensures Times(stored, a) + Times(reserved, m) + Times(bytes, m) <= Times(quota, m)
  {
    TimesFaster(stored, a, m);
    TimesMonotone(stored + reserved + bytes, quota, m);
    TimesAddsThree(stored, reserved, bytes, m);
  }

  // What a commit stores weighs no more than the reservation it gives up.
  lemma {:induction false} FilesWeigh(l: Limits, files: seq<Stored>)
    requires forall i :: 0 <= i < |files| ==> files[i].size <= LargestFile(l)
    ensures Times(FileBytes(files), l.maxArchive) <= Times(Reservation(l, |files|), LargestFile(l))
  {
    var m, a := LargestFile(l), l.maxArchive;
    if files != [] {
      var n := |files| - 1;
      FilesWeigh(l, files[..n]);
      TimesAdds(FileBytes(files[..n]), files[n].size, a);
      TimesAdds(Reservation(l, n), a, m);
      TimesMonotone(files[n].size, m, a);
      TimesSwap(m, a);
    }
  }

  // A reserved byte weighs the largest file; a byte in the gap, like a stored one, weighs
  // an archive.
  function JobWeight(l: Limits, job: Job, who: Scope): nat {
    if !Of(who, job.batch.owner) then 0
    else if job.stage.Committed? then Times(FileBytes(job.batch.files), l.maxArchive)
    else Times(job.batch.reserved, LargestFile(l))
  }

  function Weight(l: Limits, jobs: seq<Job>, who: Scope): nat {
    if jobs == [] then 0 else Weight(l, jobs[..|jobs| - 1], who) + JobWeight(l, jobs[|jobs| - 1], who)
  }

  lemma {:induction false} WeightUpdate(l: Limits, jobs: seq<Job>, j: nat, job: Job, who: Scope)
    requires j < |jobs|
    ensures Weight(l, jobs[j := job], who) == Weight(l, jobs, who) - JobWeight(l, jobs[j], who) + JobWeight(l, job, who)
  {
    var n := |jobs| - 1;
    var after := jobs[j := job];
    if j == n {
      assert after[..n] == jobs[..n];
    } else {
      WeightUpdate(l, jobs[..n], j, job, who);
      assert after[..n] == jobs[..n][j := job];
    }
  }

  lemma {:induction false} WeightAppend(l: Limits, jobs: seq<Job>, job: Job, who: Scope)
    ensures Weight(l, jobs + [job], who) == Weight(l, jobs, who) + JobWeight(l, job, who)
  {
    assert (jobs + [job])[..|jobs|] == jobs;
  }

  // What the uploads of the scope between release and insertion will store.
  function GapBytes(jobs: seq<Job>, who: Scope): nat {
    if jobs == [] then 0
    else
      var last := jobs[|jobs| - 1];
      GapBytes(jobs[..|jobs| - 1], who) +
      (if Of(who, last.batch.owner) && last.stage.Committed? then FileBytes(last.batch.files) else 0)
  }

  lemma {:induction false} GapWithin(jobs: seq<Job>, who: Scope)
    ensures GapBytes(jobs, who) <= GapBytes(jobs, None)
  {
    if jobs != [] {
      GapWithin(jobs[..|jobs| - 1], who);
    }
  }

  lemma {:induction false} WeightOfReserved(l: Limits, jobs: seq<Job>, who: Scope)
    requires forall j :: 0 <= j < |jobs| ==> JobOk(l, jobs[j])
    ensures Weight(l, jobs, who) == Times(ReservedFor(jobs, who), LargestFile(l)) + Times(GapBytes(jobs, who), l.maxArchive)
    ensures ReservedFor(jobs, who) <= ReservedFor(jobs, None)
  {
    if jobs != [] {
      var n := |jobs| - 1;
      var job := jobs[n];
      WeightOfReserved(l, jobs[..n], who);
      assert JobOk(l, job);
      var mine := Of(who, job.batch.owner);
      TimesAdds(ReservedFor(jobs[..n], who), if mine then job.batch.reserved else 0, LargestFile(l));
      TimesAdds(GapBytes(jobs[..n], who), if mine && job.stage.Committed? then FileBytes(job.batch.files) else 0, l.maxArchive);
    }
  }

  function StoredQuota(l: Limits, createdAt: nat, now: nat): nat {
    EffectiveLimits(l, createdAt, now).maxUserStored
  }

  lemma QuotaGrows(l: Limits, createdAt: nat, now: nat, later: nat)
    requires now <= later
    ensures StoredQuota(l, createdAt, now) <= StoredQuota(l, createdAt, later) <= l.maxUserStored
  {
  }

  // The quota of everybody, or of an account at its age.
  function QuotaOf(l: Limits, s: State, who: Scope): nat {
    if who.None? then l.maxTotal else if who.value in s.users then StoredQuota(l, s.users[who.value], s.clock) else 0
  }

  // The bound, with `gap` bytes to spare.
  ghost predicate Within(l: Limits, s: State, who: Scope, gap: nat) {
    Times(SumFor(s.rows, who), l.maxArchive) + Weight(l, s.jobs, who)
    <= Times(QuotaOf(l, s, who), LargestFile(l)) + Times(gap, l.maxArchive)
  }

  // Whenever an account of the scope opens an upload, at most `gap` bytes of the scope are
  // between release and insertion. A run is calm when there are none.
  predicate Calm(l: Limits, users: map<UserID, nat>, steps: seq<Step>, who: Scope, gap: nat) {
    steps == [] ||
    (var front, last := steps[..|steps| - 1], steps[|steps| - 1];
     && Calm(l, users, front, who, gap)
     && (last.Open? && Of(who, last.owner) ==> GapBytes(Run(l, users, front).jobs, who) <= gap))
  }

  lemma {:induction false} OpenedWithin(l: Limits, s: State, s': State, who: Scope, gap: nat, bytes: nat, job: Job)
    requires Conserved(l, s) && GapBytes(s.jobs, who) <= gap && Of(who, job.batch.owner)
    requires s'.rows == s.rows && s'.jobs == s.jobs + [job] && job.stage.Preparing? && job.batch.reserved == bytes
    requires SumFor(s.rows, who) + s.reserved + bytes <= QuotaOf(l, s', who)
    ensures Within(l, s', who, gap)
  {
    WeightOfReserved(l, s.jobs, who);
    TimesMonotone(GapBytes(s.jobs, who), gap, l.maxArchive);
    FreshWeight(l.maxArchive, LargestFile(l), SumFor(s.rows, who), ReservedFor(s.jobs, who), bytes, QuotaOf(l, s', who));
    WeightAppend(l, s.jobs, job, who);
  }

  // An opened upload fits both quotas; a refused one changes at most the clock.
  lemma OpenShape(l: Limits, s: State, step: Step)
    requires step.Open?
    ensures var s' := Apply(l, s, step);
      && s'.rows == s.rows && s'.users == s.users && s.clock <= s'.clock
      && (s'.jobs == s.jobs || (
            && s'.jobs == s.jobs + [NewJob(l, step.owner, step.inputs)] && step.owner in s.users
            && var bytes := Reservation(l, |step.inputs|);
              && SumAll(s.rows) + s.reserved + bytes <= l.maxTotal
              && SumForOwner(s.rows, step.owner) + s.reserved + bytes <= StoredQuota(l, s.users[step.owner], s'.clock)))
  {
  }

  lemma {:induction false} QuotaLater(l: Limits, s: State, s': State, who: Scope)
    requires s'.users == s.users && s.clock <= s'.clock
    ensures Times(QuotaOf(l, s, who), LargestFile(l)) <= Times(QuotaOf(l, s', who), LargestFile(l))
  {
    if who.Some? && who.value in s.users {
      QuotaGrows(l, s.users[who.value], s.clock, s'.clock);
    }
    TimesMonotone(QuotaOf(l, s, who), QuotaOf(l, s', who), LargestFile(l));
  }

  lemma {:induction false} OpenWithin(l: Limits, s: State, step: Step, who: Scope, gap: nat)
    requires Conserved(l, s) && Within(l, s, who, gap) && step.Open?
    requires Of(who, step.owner) ==> GapBytes(s.jobs, who) <= gap
    ensures Within(l, Apply(l, s, step), who, gap)
  {
    var s', job := Apply(l, s, step), NewJob(l, step.owner, step.inputs);
    OpenShape(l, s, step);
    if s'.jobs != s.jobs && Of(who, step.owner) {
      OpenedWithin(l, s, s', who, gap, Reservation(l, |step.inputs|), job);
    } else {
      QuotaLater(l, s, s', who);
      WeightAppend(l, s.jobs, job, who);
    }
  }

  lemma {:induction false} InsertWeighs(l: Limits, s: State, step: Step, who: Scope)
    requires Conserved(l, s) && step.Insert? && Apply(l, s, step) != s
    ensures var s' := Apply(l, s, step);
      Times(SumFor(s'.rows, who), l.maxArchive) + JobWeight(l, s'.jobs[step.job], who)
      == Times(SumFor(s.rows, who), l.maxArchive) + JobWeight(l, s.jobs[step.job], who)
  {
    var b := s.jobs[step.job].batch;
    var rows := NewRows(b, step.now);
    assert JobOk(l, s.jobs[step.job]);
    SumConcat(s.rows, rows, who);
    RowBytes(rows, b.files, b.owner, who);
    TimesAdds(SumFor(s.rows, who), SumFor(rows, who), l.maxArchive);
  }

  // No other step on an upload makes it heavier.
  lemma {:induction false} JobGetsLighter(l: Limits, s: State, step: Step, who: Scope)
    requires Conserved(l, s) && !step.Open? && !IsCleanup(step) && !step.Insert? && Apply(l, s, step) != s
    ensures var s' := Apply(l, s, step);
      step.job < |s.jobs| == |s'.jobs| && s'.rows == s.rows
      && JobWeight(l, s'.jobs[step.job], who) <= JobWeight(l, s.jobs[step.job], who)
  {
    var job := s.jobs[step.job];
    assert JobOk(l, job);
    if step.Release? {
      FilesWeigh(l, job.batch.files);
    }
  }

  lemma {:induction false} JobWithin(l: Limits, s: State, step: Step, who: Scope, gap: nat)
    requires Conserved(l, s) && Within(l, s, who, gap) && !step.Open? && !IsCleanup(step) && Apply(l, s, step) != s
    ensures Within(l, Apply(l, s, step), who, gap)
  {
    var s' := Apply(l, s, step);
    JobStep(l, s, step);
    WeightUpdate(l, s.jobs, step.job, s'.jobs[step.job], who);
    if step.Insert? {
      InsertWeighs(l, s, step, who);
    } else {
      JobGetsLighter(l, s, step, who);
    }
  }

  lemma {:induction false} CleanupWithin(l: Limits, s: State, step: Step, who: Scope, gap: nat)
    requires Within(l, s, who, gap) && IsCleanup(step)
    ensures Within(l, Apply(l, s, step), who, gap)
  {
    if step.DeleteRow? && step.row < |s.rows| {
      SumWithout(s.rows, step.row, who);
      TimesMonotone(SumFor(Apply(l, s, step).rows, who), SumFor(s.rows, who), l.maxArchive);
    }
  }

  lemma {:induction false} RunKeepsUsers(l: Limits, users: map<UserID, nat>, steps: seq<Step>)
    ensures Run(l, users, steps).users == users
  {
    if steps != [] {
      RunKeepsUsers(l, users, steps[..|steps| - 1]);
    }
  }

  lemma {:induction false} CalmWithin(l: Limits, users: map<UserID, nat>, steps: seq<Step>, who: Scope, gap: nat)
    requires Calm(l, users, steps, who, gap) && (who.Some? ==> who.value in users)
    ensures Within(l, Run(l, users, steps), who, gap)
  {
    if steps != [] {
      var n := |steps| - 1;
      CalmWithin(l, users, steps[..n], who, gap);
      ReservationConserved(l, users, steps[..n]);
      StepWithin(l, Run(l, users, steps[..n]), steps[n], who, gap);
    }
  }

  lemma {:induction false} StepWithin(l: Limits, s: State, step: Step, who: Scope, gap: nat)
    requires Conserved(l, s) && Within(l, s, who, gap)
    requires step.Open? && Of(who, step.owner) ==> GapBytes(s.jobs, who) <= gap
    ensures Within(l, Apply(l, s, step), who, gap)
  {
    if step.Open? {
      OpenWithin(l, s, step, who, gap);
    } else if IsCleanup(step) {
      CleanupWithin(l, s, step, who, gap);
    } else if Apply(l, s, step) != s {
      JobWithin(l, s, step, who, gap);
    }
  }

  // The most bytes in the gap at a time when the scope opens an upload.
  function OpenGap(l: Limits, users: map<UserID, nat>, steps: seq<Step>, who: Scope): nat {
    if steps == [] then 0
    else
      var front, last := steps[..|steps| - 1], steps[|steps| - 1];
      Max(OpenGap(l, users, front, who), if last.Open? && Of(who, last.owner) then GapBytes(Run(l, users, front).jobs, who) else 0)
  }

  lemma {:induction false} CalmIff(l: Limits, users: map<UserID, nat>, steps: seq<Step>, who: Scope, gap: nat)
    ensures Calm(l, users, steps, who, gap) <==> OpenGap(l, users, steps, who) <= gap
  {
    if steps != [] {
      CalmIff(l, users, steps[..|steps| - 1], who, gap);
    }
  }

  lemma {:induction false} CalmBound(l: Limits, users: map<UserID, nat>, steps: seq<Step>, who: Scope, gap: nat)
    requires Calm(l, users, steps, who, gap) && (who.Some? ==> who.value in users)
    ensures var s := Run(l, users, steps);
      Times(SumFor(s.rows, who), l.maxArchive) + Times(ReservedFor(s.jobs, who), LargestFile(l))
      <= Times(QuotaOf(l, s, who), LargestFile(l)) + Times(gap, l.maxArchive)
  {
    CalmWithin(l, users, steps, who, gap);
    ReservationConserved(l, users, steps);
    WeightOfReserved(l, Run(l, users, steps).jobs, who);
  }

  /** Weighted quota bound for every run: with A the archive limit and M the largest
      processed file, A * stored + M * reserved <= M * quota + A * gap, for the whole
      service and for every account with its own quota at its own age, where `gap` is the
      most that lies between release and insertion when the scope opens an upload. */
  lemma {:induction false} WeightedQuota(l: Limits, users: map<UserID, nat>, steps: seq<Step>, who: Scope)
    requires who.Some? ==> who.value in users
    ensures var s := Run(l, users, steps);
      Times(SumFor(s.rows, who), l.maxArchive) + Times(ReservedFor(s.jobs, who), LargestFile(l))
      <= Times(QuotaOf(l, s, who), LargestFile(l)) + Times(OpenGap(l, users, steps, who), l.maxArchive)
  {
    CalmIff(l, users, steps, who, OpenGap(l, users, steps, who));
    CalmBound(l, users, steps, who, OpenGap(l, users, steps, who));
  }

  lemma {:induction false} QuotaWithoutExcess(l: Limits, users: map<UserID, nat>, steps: seq<Step>, who: Scope)
    requires Calm(l, users, steps, who, 0) && (who.Some? ==> who.value in users) && l.maxArchive > 0
    requires LargestFile(l) == l.maxArchive
    ensures SumFor(Run(l, users, steps).rows, who) <= QuotaOf(l, Run(l, users, steps), who)
  {
    CalmBound(l, users, steps, who, 0);
    var s := Run(l, users, steps);
    TimesCancel(SumFor(s.rows, who), QuotaOf(l, s, who), l.maxArchive);
  }
}
