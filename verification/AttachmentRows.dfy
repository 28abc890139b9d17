/** What the rows of the attachment table say about the files on disk. */
module AttachmentRows {
  import opened Wrappers
  import opened AttachmentStorage
  import opened AttachmentFiles

  // The files that the cleanup has removed as orphans.
  function Swept(l: Limits, users: map<UserID, nat>, steps: seq<Step>): set<Path> {
    if steps == [] then {}
    else
      var front, last := steps[..|steps| - 1], steps[|steps| - 1];
      Swept(l, users, front) +
      (if last.RemoveOrphan? && last.path in Run(l, users, front).orphans then {last.path} else {})
  }

  // The row describes file `k` of the upload, at the place that it has been moved to.
  ghost predicate Describes(row: Row, job: Job, k: nat) {
    var b := job.batch;
    && job.stage.Inserted? && k < |b.files| == |b.moved|
    && row.path == b.moved[k] && row.size == b.files[k].size && row.owner == b.owner
  }

  ghost predicate DescribesSome(row: Row, jobs: seq<Job>) {
    exists j: nat, k: nat :: j < |jobs| && Describes(row, jobs[j], k)
  }

  // An upload moves its files to different places, none of them a temporary one.
  ghost predicate PlacesOk(b: Batch) {
    && (forall i, k :: 0 <= i < k < |b.moved| ==> b.moved[i] != b.moved[k])
    && forall i, k :: 0 <= i < |b.files| && 0 <= k < |b.moved| ==> b.files[i].path != b.moved[k]
  }

  // Until its rows are inserted, the moved files of an upload are there or swept.
  ghost predicate Pending(job: Job, disk: set<Path>, swept: set<Path>) {
    job.stage.Inserted? || job.stage.RolledBack? ||
    forall k :: 0 <= k < |job.batch.moved| ==> job.batch.moved[k] in disk || job.batch.moved[k] in swept
  }

  ghost predicate JobsOk(s: State, swept: set<Path>) {
    forall j :: 0 <= j < |s.jobs| ==> PlacesOk(s.jobs[j].batch) && Pending(s.jobs[j], s.disk, swept)
  }

  ghost predicate RowsOk(s: State, swept: set<Path>) {
    && (forall r :: 0 <= r < |s.rows| ==>
          DescribesSome(s.rows[r], s.jobs) && (s.rows[r].path in s.disk <==> s.rows[r].path !in swept))
    && forall r, q :: 0 <= r < q < |s.rows| ==> s.rows[r].path != s.rows[q].path
  }

  ghost predicate InJobs(jobs: seq<Job>, p: Path) {
    exists j :: 0 <= j < |jobs| && p in Paths(jobs[j].batch)
  }

  ghost predicate SweepOk(s: State, swept: set<Path>) {
    && swept !! s.disk
    && forall p :: p in swept + s.orphans ==> InJobs(s.jobs, p)
  }

  ghost predicate Sound(s: State, swept: set<Path>) {
    JobsOk(s, swept) && RowsOk(s, swept) && SweepOk(s, swept)
  }

  lemma MovedIsPath(b: Batch, k: nat)
    requires k < |b.moved|
    ensures b.moved[k] in Paths(b)
  {
  }

  lemma InJobsKept(jobs: seq<Job>, jobs': seq<Job>, p: Path)
    requires InJobs(jobs, p) && |jobs| <= |jobs'|
    requires forall j :: 0 <= j < |jobs| ==> Paths(jobs[j].batch) <= Paths(jobs'[j].batch)
    ensures InJobs(jobs', p)
  {
    var j :| 0 <= j < |jobs| && p in Paths(jobs[j].batch);
    assert p in Paths(jobs'[j].batch);
  }

  // A step that rewrites one upload without inserting its rows, and touches no file but its own.
  ghost predicate Touches(s: State, s': State, j: nat, swept: set<Path>) {
    && j < |s.jobs| == |s'.jobs| && s'.jobs == s.jobs[j := s'.jobs[j]]
    && s'.rows == s.rows && s'.orphans == s.orphans && swept !! s'.disk
    && !s.jobs[j].stage.Inserted? && !s'.jobs[j].stage.Inserted?
    && Paths(s.jobs[j].batch) <= Paths(s'.jobs[j].batch)
    && (forall p :: p !in Paths(s'.jobs[j].batch) ==> (p in s'.disk <==> p in s.disk))
    && PlacesOk(s'.jobs[j].batch) && Pending(s'.jobs[j], s'.disk, swept)
  }

  // A row stays with its upload, whose files no other upload touches.
  lemma RowUntouched(s: State, s': State, j: nat, row: Row, swept: set<Path>)
    requires Touches(s, s', j, swept) && PathsDisjoint(s'.jobs) && DescribesSome(row, s.jobs)
    ensures DescribesSome(row, s'.jobs) && (row.path in s'.disk <==> row.path in s.disk)
  {
    var i: nat, k: nat :| i < |s.jobs| && Describes(row, s.jobs[i], k);
    assert Describes(row, s'.jobs[i], k);
    MovedIsPath(s'.jobs[i].batch, k);
    assert Paths(s'.jobs[i].batch) !! Paths(s'.jobs[j].batch);
  }

  lemma PendingUntouched(s: State, s': State, j: nat, i: nat, swept: set<Path>)
    requires Touches(s, s', j, swept) && PathsDisjoint(s'.jobs) && i < |s.jobs| && i != j
    requires Pending(s.jobs[i], s.disk, swept)
    ensures Pending(s'.jobs[i], s'.disk, swept)
  {
    var b := s.jobs[i].batch;
    assert Paths(s'.jobs[i].batch) !! Paths(s'.jobs[j].batch);
    assert forall k :: 0 <= k < |b.moved| ==> b.moved[k] in Paths(b);
  }

  lemma TouchesKeepsSound(s: State, s': State, j: nat, swept: set<Path>)
    requires Sound(s, swept) && Touches(s, s', j, swept) && PathsDisjoint(s'.jobs)
    ensures Sound(s', swept)
  {
    forall i | 0 <= i < |s'.jobs|
      ensures PlacesOk(s'.jobs[i].batch) && Pending(s'.jobs[i], s'.disk, swept)
    {
      if i != j {
        PendingUntouched(s, s', j, i, swept);
      }
    }
    forall r | 0 <= r < |s'.rows|
      ensures DescribesSome(s'.rows[r], s'.jobs) && (s'.rows[r].path in s'.disk <==> s'.rows[r].path !in swept)
    {
      RowUntouched(s, s', j, s.rows[r], swept);
    }
    forall p | p in swept + s'.orphans
      ensures InJobs(s'.jobs, p)
    {
      InJobsKept(s.jobs, s'.jobs, p);
    }
  }

  // An unused path has never been swept.
  lemma UnusedIsNew(s: State, p: Path, swept: set<Path>)
    requires SweepOk(s, swept) && Unused(s, p)
    ensures p !in swept
  {
    assert !InJobs(s.jobs, p);
  }

  lemma RollbackTouches(s: State, j: nat, swept: set<Path>)
    requires Sound(s, swept) && j < |s.jobs| && !s.jobs[j].stage.Inserted?
    ensures Touches(s, RollbackJob(s, j), j, swept)
  {
    var s' := RollbackJob(s, j);
    assert Paths(s'.jobs[j].batch) == Paths(s.jobs[j].batch);
  }

  lemma ProcessTouches(l: Limits, s: State, step: Step, swept: set<Path>)
    requires Sound(s, swept) && Conserved(l, s) && step.Process? && Apply(l, s, step) != s
    ensures Touches(s, Apply(l, s, step), step.job, swept)
  {
    var s', j := Apply(l, s, step), step.job;
    assert JobOk(l, s.jobs[j]);
    ProcessShape(l, s, step);
    if s' == RollbackJob(s, j) {
      RollbackTouches(s, j, swept);
    } else {
      UnusedIsNew(s, step.temp, swept);
      var size :| s'.jobs[j].batch.files == s.jobs[j].batch.files + [Stored(step.temp, size)];
      assert s'.jobs[j].batch.moved == [];
    }
  }

  lemma MoveTouches(l: Limits, s: State, step: Step, swept: set<Path>)
    requires Sound(s, swept) && Conserved(l, s) && step.Move? && Apply(l, s, step) != s
    ensures Touches(s, Apply(l, s, step), step.job, swept)
  {
    var s', j := Apply(l, s, step), step.job;
    var b, b' := s.jobs[j].batch, s'.jobs[j].batch;
    if !step.ok {
      RollbackTouches(s, j, swept);
    } else {
      UnusedIsNew(s, step.destination, swept);
      assert step.destination !in Paths(b);
      assert Paths(b') == Paths(b) + {step.destination};
      assert forall k :: 0 <= k < |b.moved| ==> b.moved[k] in Paths(b);
      assert forall k :: 0 <= k < |b.files| ==> b.files[k] in b.files && b.files[k].path in Paths(b);
    }
  }

  lemma JobStepSound(l: Limits, s: State, step: Step, swept: set<Path>)
    requires Sound(s, swept) && Conserved(l, s) && PathsDisjoint(Apply(l, s, step).jobs) && Apply(l, s, step) != s
    requires step.Process? || step.Move? || step.Release? || step.Rollback?
    ensures Sound(Apply(l, s, step), swept)
  {
    var j := step.job;
    if step.Process? {
      ProcessTouches(l, s, step, swept);
    } else if step.Move? {
      MoveTouches(l, s, step, swept);
    } else if step.Rollback? {
      RollbackTouches(s, j, swept);
    }
    TouchesKeepsSound(s, Apply(l, s, step), j, swept);
  }

  lemma DescribedElsewhere(s: State, j: nat, row: Row)
    requires PathsDisjoint(s.jobs) && j < |s.jobs| && !s.jobs[j].stage.Inserted? && DescribesSome(row, s.jobs)
    ensures row.path !in Paths(s.jobs[j].batch)
    ensures DescribesSome(row, s.jobs[j := s.jobs[j].(stage := Inserted)])
  {
    var i: nat, k: nat :| i < |s.jobs| && Describes(row, s.jobs[i], k);
    assert i != j;
    assert Describes(row, s.jobs[j := s.jobs[j].(stage := Inserted)][i], k);
    MovedIsPath(s.jobs[i].batch, k);
    assert Paths(s.jobs[i].batch) !! Paths(s.jobs[j].batch);
  }

  lemma InsertShape(l: Limits, s: State, step: Step)
    requires step.Insert? && Apply(l, s, step) != s
    ensures step.job < |s.jobs| && s.jobs[step.job].stage.Committed?
    ensures var b := s.jobs[step.job].batch;
      && |b.moved| == |b.files|
      && Apply(l, s, step) == s.(
        rows := s.rows + NewRows(b, step.now), jobs := s.jobs[step.job := s.jobs[step.job].(stage := Inserted)])
  {
  }

  lemma NewRowsDescribe(s: State, j: nat, now: nat, k: nat)
    requires j < |s.jobs| && k < |s.jobs[j].batch.moved| == |s.jobs[j].batch.files|
    ensures var b := s.jobs[j].batch;
      && b.moved[k] in Paths(b) && NewRows(b, now)[k].path == b.moved[k]
      && DescribesSome(NewRows(b, now)[k], s.jobs[j := s.jobs[j].(stage := Inserted)])
  {
    var jobs' := s.jobs[j := s.jobs[j].(stage := Inserted)];
    assert Describes(NewRows(s.jobs[j].batch, now)[k], jobs'[j], k);
  }

  lemma InsertedRows(s: State, s': State, j: nat, now: nat, swept: set<Path>)
    requires Sound(s, swept) && PathsDisjoint(s.jobs) && j < |s.jobs| && s.jobs[j].stage.Committed?
    requires var b := s.jobs[j].batch;
      && |b.moved| == |b.files|
      && s' == s.(rows := s.rows + NewRows(b, now), jobs := s.jobs[j := s.jobs[j].(stage := Inserted)])
    ensures RowsOk(s', swept)
  {
    var b := s.jobs[j].batch;
    forall r | 0 <= r < |s.rows|
      ensures s.rows[r].path !in Paths(b) && DescribesSome(s.rows[r], s'.jobs)
    {
      DescribedElsewhere(s, j, s.rows[r]);
    }
    forall k | 0 <= k < |b.moved|
      ensures b.moved[k] in Paths(b) && s'.rows[|s.rows| + k].path == b.moved[k] && DescribesSome(s'.rows[|s.rows| + k], s'.jobs)
    {
      NewRowsDescribe(s, j, now, k);
    }
    assert PlacesOk(b) && Pending(s.jobs[j], s.disk, swept);
    NewRowsSound(s, s', b, swept);
  }

  lemma InsertSound(l: Limits, s: State, step: Step, swept: set<Path>)
    requires Sound(s, swept) && PathsDisjoint(s.jobs) && step.Insert? && Apply(l, s, step) != s
    ensures Sound(Apply(l, s, step), swept)
  {
    var s', j := Apply(l, s, step), step.job;
    InsertShape(l, s, step);
    InsertedRows(s, s', j, step.now, swept);
    forall p | p in swept + s'.orphans
      ensures InJobs(s'.jobs, p)
    {
      InJobsKept(s.jobs, s'.jobs, p);
    }
  }

  lemma NewRowsSound(s: State, s': State, b: Batch, swept: set<Path>)
    requires RowsOk(s, swept) && PlacesOk(b) && s'.disk == s.disk && swept !! s.disk
    requires |s'.rows| == |s.rows| + |b.moved| && s'.rows[..|s.rows|] == s.rows
    requires forall k :: 0 <= k < |b.moved| ==> b.moved[k] in s.disk || b.moved[k] in swept
    requires forall r :: 0 <= r < |s.rows| ==> s.rows[r].path !in Paths(b) && DescribesSome(s.rows[r], s'.jobs)
    requires forall k :: 0 <= k < |b.moved| ==>
      b.moved[k] in Paths(b) && s'.rows[|s.rows| + k].path == b.moved[k] && DescribesSome(s'.rows[|s.rows| + k], s'.jobs)
    ensures RowsOk(s', swept)
  {
    var n := |s.rows|;
    assert forall r :: 0 <= r < n ==> s'.rows[r] == s.rows[r];
    forall r | 0 <= r < |s'.rows|
      ensures DescribesSome(s'.rows[r], s'.jobs) && (s'.rows[r].path in s'.disk <==> s'.rows[r].path !in swept)
    {
      if r >= n {
        var k := r - n;
        assert s'.rows[n + k].path == b.moved[k];
      }
    }
    forall r, q | 0 <= r < q < |s'.rows|
      ensures s'.rows[r].path != s'.rows[q].path
    {
      if q >= n {
        var k := q - n;
        assert s'.rows[n + k].path == b.moved[k];
        if r >= n {
          var i := r - n;
          assert s'.rows[n + i].path == b.moved[i];
        }
      }
    }
  }

  // When a row's file goes, only the uploads that are not through matter, and it is of none.
  lemma PendingAfterDelete(s: State, row: Row, swept: set<Path>)
    requires JobsOk(s, swept) && PathsDisjoint(s.jobs) && DescribesSome(row, s.jobs)
    ensures forall j :: 0 <= j < |s.jobs| ==> Pending(s.jobs[j], s.disk - {row.path}, swept)
  {
    var i: nat, k: nat :| i < |s.jobs| && Describes(row, s.jobs[i], k);
    MovedIsPath(s.jobs[i].batch, k);
    forall j | 0 <= j < |s.jobs|
      ensures Pending(s.jobs[j], s.disk - {row.path}, swept)
    {
      var b := s.jobs[j].batch;
      assert Pending(s.jobs[j], s.disk, swept);
      if j != i {
        assert Paths(b) !! Paths(s.jobs[i].batch);
        assert forall m :: 0 <= m < |b.moved| ==> b.moved[m] in Paths(b);
      }
    }
  }

  lemma RowsAfterDelete(s: State, s': State, gone: nat, swept: set<Path>)
    requires RowsOk(s, swept) && gone < |s.rows| && s'.jobs == s.jobs
    requires s'.rows == s.rows[..gone] + s.rows[gone + 1..]
    requires s'.disk == s.disk || s'.disk == s.disk - {s.rows[gone].path}
    ensures RowsOk(s', swept)
  {
    forall r | 0 <= r < |s'.rows|
      ensures s'.rows[r] == s.rows[if r < gone then r else r + 1]
    {
    }
  }

  lemma DeleteSound(l: Limits, s: State, step: Step, swept: set<Path>)
    requires Sound(s, swept) && PathsDisjoint(s.jobs) && step.DeleteRow? && step.row < |s.rows|
    ensures Sound(Apply(l, s, step), swept)
  {
    RowsAfterDelete(s, Apply(l, s, step), step.row, swept);
    PendingAfterDelete(s, s.rows[step.row], swept);
  }

  lemma SweepSound(l: Limits, s: State, path: Path, swept: set<Path>)
    requires Sound(s, swept)
    ensures Sound(Apply(l, s, FindOrphan(path)), swept)
    ensures Sound(Apply(l, s, RemoveOrphan(path)), if path in s.orphans then swept + {path} else swept)
  {
    if IsStored(s, path) {
      var j :| 0 <= j < |s.jobs| && path in s.jobs[j].batch.moved;
      assert path in Paths(s.jobs[j].batch);
    }
    if path in s.orphans {
      var s' := Apply(l, s, RemoveOrphan(path));
      assert InJobs(s.jobs, path);
      assert forall j :: 0 <= j < |s.jobs| && Pending(s.jobs[j], s.disk, swept) ==> Pending(s'.jobs[j], s'.disk, swept + {path});
    }
  }

  lemma OpenSound(l: Limits, s: State, step: Step, swept: set<Path>)
    requires Sound(s, swept) && step.Open?
    ensures Sound(Apply(l, s, step), swept)
  {
    var s' := Apply(l, s, step);
    if s'.jobs != s.jobs {
      assert s'.jobs == s.jobs + [NewJob(l, step.owner, step.inputs)];
      forall r | 0 <= r < |s.rows|
        ensures DescribesSome(s.rows[r], s'.jobs)
      {
        var i: nat, k: nat :| i < |s.jobs| && Describes(s.rows[r], s.jobs[i], k);
        assert Describes(s.rows[r], s'.jobs[i], k);
      }
      forall p | p in swept + s'.orphans
        ensures InJobs(s'.jobs, p)
      {
        InJobsKept(s.jobs, s'.jobs, p);
      }
    }
  }

  lemma {:induction false} RunIsSound(l: Limits, users: map<UserID, nat>, steps: seq<Step>)
    ensures Sound(Run(l, users, steps), Swept(l, users, steps))
  {
    if steps != [] {
      var front, last := steps[..|steps| - 1], steps[|steps| - 1];
      var s, swept := Run(l, users, front), Swept(l, users, front);
      RunIsSound(l, users, front);
      RollbackLeavesNothing(l, users, front);
      RollbackLeavesNothing(l, users, steps);
      ReservationConserved(l, users, front);
      if Apply(l, s, last) != s {
        match last
        case Open(_, _, _, _) => OpenSound(l, s, last, swept);
        case Insert(_, _) => InsertSound(l, s, last, swept);
        case DeleteRow(_, _) => DeleteSound(l, s, last, swept);
        case FindOrphan(path) => SweepSound(l, s, path, swept);
        case RemoveOrphan(path) => SweepSound(l, s, path, swept);
        case _ => JobStepSound(l, s, last, swept);
      }
    }
  }

  // One file of one upload is described by a row, and no other.
  ghost predicate DescribesOnly(row: Row, jobs: seq<Job>) {
    exists j: nat, k: nat :: j < |jobs| && Describes(row, jobs[j], k) &&
      forall i: nat, m: nat :: i < |jobs| && m < |jobs[i].batch.moved| && jobs[i].batch.moved[m] == row.path ==> i == j && m == k
  }

  lemma DescribedOnce(s: State, row: Row)
    requires PathsDisjoint(s.jobs) && DescribesSome(row, s.jobs)
    requires forall j :: 0 <= j < |s.jobs| ==> PlacesOk(s.jobs[j].batch)
    ensures DescribesOnly(row, s.jobs)
  {
    var j: nat, k: nat :| j < |s.jobs| && Describes(row, s.jobs[j], k);
    MovedIsPath(s.jobs[j].batch, k);
    forall i: nat, m: nat | i < |s.jobs| && m < |s.jobs[i].batch.moved| && s.jobs[i].batch.moved[m] == row.path
      ensures i == j && m == k
    {
      MovedIsPath(s.jobs[i].batch, m);
    }
  }

  /** In every interleaving, each row describes exactly one moved file of one upload that has
      been inserted, no two rows have the same file, and the file of a row is on disk if and
      only if the cleanup has not removed it as an orphan. */
  lemma RowsHaveFilesIff(l: Limits, users: map<UserID, nat>, steps: seq<Step>)
    ensures var rows := Run(l, users, steps).rows;
      && (forall r :: 0 <= r < |rows| ==> DescribesOnly(rows[r], Run(l, users, steps).jobs))
      && (forall r, q :: 0 <= r < q < |rows| ==> rows[r].path != rows[q].path)
      && forall r :: 0 <= r < |rows| ==>
           (rows[r].path in Run(l, users, steps).disk <==> rows[r].path !in Swept(l, users, steps))
  {
    RunIsSound(l, users, steps);
    RollbackLeavesNothing(l, users, steps);
    var s := Run(l, users, steps);
    forall r | 0 <= r < |s.rows|
      ensures DescribesOnly(s.rows[r], s.jobs)
    {
      DescribedOnce(s, s.rows[r]);
    }
  }

  // At step `m` the cleanup found the file and no row of it.
  ghost predicate FoundAt(l: Limits, users: map<UserID, nat>, steps: seq<Step>, m: nat, path: Path) {
    && m < |steps| && steps[m] == FindOrphan(path)
    && var s := Run(l, users, steps[..m]);
       path in s.disk && WasMoved(s.jobs, path) && forall r :: 0 <= r < |s.rows| ==> s.rows[r].path != path
  }

  ghost predicate WasMoved(jobs: seq<Job>, path: Path) {
    exists j, k :: 0 <= j < |jobs| && 0 <= k < |jobs[j].batch.moved| && jobs[j].batch.moved[k] == path
  }

  /** The cleanup finds exactly the moved files that are on disk and have no row, and removes
      what it has found. */
  lemma CleanupRemovesOrphans(l: Limits, s: State, path: Path)
    ensures path in Apply(l, s, FindOrphan(path)).orphans <==>
      path in s.orphans ||
      (path in s.disk && WasMoved(s.jobs, path) && forall r :: 0 <= r < |s.rows| ==> s.rows[r].path != path)
    ensures path in s.orphans ==> path !in Apply(l, s, RemoveOrphan(path)).disk
  {
    forall j | 0 <= j < |s.jobs| && path in s.jobs[j].batch.moved
      ensures WasMoved(s.jobs, path)
    {
      var k :| 0 <= k < |s.jobs[j].batch.moved| && s.jobs[j].batch.moved[k] == path;
    }
  }

  lemma {:induction false} SweptWasFound(l: Limits, users: map<UserID, nat>, steps: seq<Step>, path: Path)
    returns (m: nat)
    requires path in Swept(l, users, steps) + Run(l, users, steps).orphans
    ensures FoundAt(l, users, steps, m, path)
  {
    var n := |steps| - 1;
    if path in Swept(l, users, steps[..n]) + Run(l, users, steps[..n]).orphans {
      m := SweptWasFound(l, users, steps[..n], path);
      assert steps[..n][..m] == steps[..m];
    } else {
      CleanupRemovesOrphans(l, Run(l, users, steps[..n]), path);
      m := n;
    }
  }

  /** The file of a row can only be missing when the cleanup looked at it after it had been
      moved and before its row was inserted. */
  lemma MissingWasFoundEarly(l: Limits, users: map<UserID, nat>, steps: seq<Step>, r: nat) returns (m: nat)
    requires r < |Run(l, users, steps).rows| && Run(l, users, steps).rows[r].path !in Run(l, users, steps).disk
    ensures FoundAt(l, users, steps, m, Run(l, users, steps).rows[r].path)
  {
    RowsHaveFilesIff(l, users, steps);
    m := SweptWasFound(l, users, steps, Run(l, users, steps).rows[r].path);
  }

  lemma WithoutRow(rows: seq<Row>, r: nat)
    requires r < |rows| && forall i, k :: 0 <= i < k < |rows| ==> rows[i].path != rows[k].path
    ensures var left := rows[..r] + rows[r + 1..];
      |left| == |rows| - 1 && forall q :: 0 <= q < |left| ==> left[q].path != rows[r].path
  {
    var left := rows[..r] + rows[r + 1..];
    assert forall q :: 0 <= q < |left| ==> left[q] == rows[if q < r then q else q + 1];
  }

  /** In every run, a deleted row takes its file along if that is unlinked; otherwise the file
      is without a row, and so within reach of the cleanup. */
  lemma DeletedRowTakesFile(l: Limits, users: map<UserID, nat>, steps: seq<Step>, r: nat, unlink: bool)
    requires r < |Run(l, users, steps).rows|
    ensures var s, path := Run(l, users, steps), Run(l, users, steps).rows[r].path;
      var t := Apply(l, s, DeleteRow(r, unlink));
      && |t.rows| == |s.rows| - 1 && (forall q :: 0 <= q < |t.rows| ==> t.rows[q].path != path)
      && (path in t.disk <==> !unlink && path !in Swept(l, users, steps))
  {
    RowsHaveFilesIff(l, users, steps);
    WithoutRow(Run(l, users, steps).rows, r);
  }

  lemma After(l: Limits, users: map<UserID, nat>, steps: seq<Step>, step: Step)
    ensures Run(l, users, steps + [step]) == Apply(l, Run(l, users, steps), step)
  {
    assert (steps + [step])[..|steps|] == steps;
  }

  const SMALL := Limits(10, 10, 10, 1, 100, 100, 100, 0)

  // One upload of five bytes that stands at `stage`; its file has been moved to place 2.
  function Moved(owner: UserID, stage: Stage, orphans: set<Path>): State {
    var reserved := if stage.Ready? then 10 else 0;
    var batch := Batch(owner, [Stored(1, 5)], [2], reserved, !stage.Ready?);
    State(reserved, [Job(batch, [5], stage)], if stage.Inserted? then [Row(owner, 5, 2, 100000)] else [],
          {2}, map[owner := 0], 100000, orphans)
  }

  // The same upload before that, with the files processed so far.
  function Opened(owner: UserID, files: seq<Stored>): State {
    State(10, [Job(Batch(owner, files, [], 10, false), [5], if files == [] then Preparing else Ready)], [],
          set f | f in files :: f.path, map[owner := 0], 100000, {})
  }

  lemma Opens(owner: UserID)
    ensures Apply(SMALL, Init(map[owner := 0]), Open(owner, [5], 100000, None)) == Opened(owner, [])
  {
    assert Reservation(SMALL, 1) == Reservation(SMALL, 0) + 10;
    assert InputsOk(SMALL, [5]);
    assert CanReserve(SMALL, Init(map[owner := 0]), owner, 10, 100000, None);
  }

  lemma ProcessesAndMoves(owner: UserID)
    ensures Apply(SMALL, Opened(owner, []), Process(0, Content(5, Some(File), true, 0), 1)) == Opened(owner, [Stored(1, 5)])
    ensures Apply(SMALL, Opened(owner, [Stored(1, 5)]), Move(0, true, 2)) == Moved(owner, Ready, {})
  {
    var s, t := Opened(owner, []), Opened(owner, [Stored(1, 5)]);
    assert s.disk == {} && t.disk == {1};
    assert ProcessedSize(SMALL, 5, Content(5, Some(File), true, 0)) == Some(5);
    assert Paths(s.jobs[0].batch) == {} && Paths(t.jobs[0].batch) == {1};
    assert Unused(s, 1) && Unused(t, 2);
    var s' := Apply(SMALL, s, Process(0, Content(5, Some(File), true, 0), 1));
    assert s'.disk == t.disk && s'.jobs[0].batch.files == t.jobs[0].batch.files && s'.jobs == t.jobs;
    var t' := Apply(SMALL, t, Move(0, true, 2));
    assert t'.disk == {2} && t'.jobs[0].batch.moved == [2] && t'.jobs == Moved(owner, Ready, {}).jobs;
  }

  lemma OneUpload(owner: UserID) returns (steps: seq<Step>)
    ensures Run(SMALL, map[owner := 0], steps) == Moved(owner, Ready, {})
  {
    var users, process := map[owner := 0], Process(0, Content(5, Some(File), true, 0), 1);
    Opens(owner);
    ProcessesAndMoves(owner);
    steps := [Open(owner, [5], 100000, None)];
    After(SMALL, users, [], Open(owner, [5], 100000, None));
    assert [] + steps == steps;
    After(SMALL, users, steps, process);
    After(SMALL, users, steps + [process], Move(0, true, 2));
    steps := steps + [process] + [Move(0, true, 2)];
  }

  lemma FindsAndReleases(owner: UserID)
    ensures Apply(SMALL, Moved(owner, Ready, {}), FindOrphan(2)) == Moved(owner, Ready, {2})
    ensures Apply(SMALL, Moved(owner, Ready, {2}), Release(0)) == Moved(owner, Committed, {2})
  {
    assert 2 in Moved(owner, Ready, {}).jobs[0].batch.moved;
  }

  lemma InsertsAndLoses(owner: UserID)
    ensures Apply(SMALL, Moved(owner, Committed, {2}), Insert(0, 100000)) == Moved(owner, Inserted, {2})
    ensures Apply(SMALL, Moved(owner, Inserted, {2}), RemoveOrphan(2)) == Moved(owner, Inserted, {}).(disk := {})
  {
  }

  /** It does happen: the cleanup finds a file that an upload has just moved, the upload
      releases and inserts its row, and the cleanup removes the file. */
  lemma SweepLosesFile(owner: UserID) returns (steps: seq<Step>)
    ensures var s := Run(SMALL, map[owner := 0], steps);
      |s.rows| == 1 && s.rows[0].path !in s.disk
  {
    var users := map[owner := 0];
    steps := OneUpload(owner);
    FindsAndReleases(owner);
    InsertsAndLoses(owner);
    After(SMALL, users, steps, FindOrphan(2));
    After(SMALL, users, steps + [FindOrphan(2)], Release(0));
    After(SMALL, users, steps + [FindOrphan(2)] + [Release(0)], Insert(0, 100000));
    After(SMALL, users, steps + [FindOrphan(2)] + [Release(0)] + [Insert(0, 100000)], RemoveOrphan(2));
    steps := steps + [FindOrphan(2)] + [Release(0)] + [Insert(0, 100000)] + [RemoveOrphan(2)];
  }
}
