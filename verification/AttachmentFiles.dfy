/** What the upload protocol leaves on disk. */
module AttachmentFiles {
  import opened AttachmentStorage

  // ----- Files on disk -----

  ghost predicate PathsDisjoint(jobs: seq<Job>) {
    forall i, j :: 0 <= i < j < |jobs| ==> Paths(jobs[i].batch) !! Paths(jobs[j].batch)
  }

  ghost predicate RolledBackGone(jobs: seq<Job>, disk: set<Path>) {
    forall j :: 0 <= j < |jobs| && jobs[j].stage.RolledBack? ==> Paths(jobs[j].batch) !! disk
  }

  ghost predicate HasOwner(jobs: seq<Job>, p: Path) {
    exists j :: 0 <= j < |jobs| && !jobs[j].stage.RolledBack? && p in Paths(jobs[j].batch)
  }

  // Nothing on disk but files of uploads in progress or finished.
  ghost predicate NoLeak(jobs: seq<Job>, disk: set<Path>) {
    forall p :: p in disk ==> HasOwner(jobs, p)
  }

  ghost predicate FilesOk(s: State) {
    PathsDisjoint(s.jobs) && RolledBackGone(s.jobs, s.disk) && NoLeak(s.jobs, s.disk)
  }

  lemma OwnerKept(jobs: seq<Job>, jobs': seq<Job>, p: Path)
    requires |jobs| <= |jobs'| && HasOwner(jobs, p)
    requires forall j :: 0 <= j < |jobs| ==>
      (p in Paths(jobs[j].batch) && !jobs[j].stage.RolledBack? ==> p in Paths(jobs'[j].batch) && !jobs'[j].stage.RolledBack?)
    ensures HasOwner(jobs', p)
  {
    var j :| 0 <= j < |jobs| && !jobs[j].stage.RolledBack? && p in Paths(jobs[j].batch);
    assert p in Paths(jobs'[j].batch);
  }

  lemma RollbackFiles(s: State, j: nat)
    requires FilesOk(s) && j < |s.jobs|
    ensures FilesOk(RollbackJob(s, j))
    ensures Paths(RollbackJob(s, j).jobs[j].batch) == Paths(s.jobs[j].batch)
    ensures Paths(s.jobs[j].batch) !! RollbackJob(s, j).disk
  {
    var s' := RollbackJob(s, j);
    assert Paths(s'.jobs[j].batch) == Paths(s.jobs[j].batch);
    forall p | p in s'.disk
      ensures HasOwner(s'.jobs, p)
    {
      OwnerKept(s.jobs, s'.jobs, p);
    }
  }

  // A job that gains one unused path which is put on disk, and may lose another from disk.
  lemma PathAdded(s: State, s': State, j: nat, added: Path)
    requires FilesOk(s) && j < |s.jobs| == |s'.jobs| && s'.jobs == s.jobs[j := s'.jobs[j]]
    requires Unused(s, added) && s'.disk <= s.disk + {added}
    requires !s.jobs[j].stage.RolledBack? && !s'.jobs[j].stage.RolledBack?
    requires Paths(s'.jobs[j].batch) == Paths(s.jobs[j].batch) + {added}
    ensures FilesOk(s')
  {
    forall p | p in s'.disk
      ensures HasOwner(s'.jobs, p)
    {
      if p == added {
        assert p in Paths(s'.jobs[j].batch);
      } else {
        OwnerKept(s.jobs, s'.jobs, p);
      }
    }
    forall a, b | 0 <= a < b < |s'.jobs|
      ensures Paths(s'.jobs[a].batch) !! Paths(s'.jobs[b].batch)
    {
      assert Paths(s.jobs[a].batch) !! Paths(s.jobs[b].batch);
    }
  }

  // A step that keeps every path where it is and removes nothing but disk entries.
  lemma PathsKept(s: State, s': State)
    requires FilesOk(s) && s'.disk <= s.disk && |s.jobs| <= |s'.jobs|
    requires forall j :: 0 <= j < |s.jobs| ==>
      Paths(s'.jobs[j].batch) == Paths(s.jobs[j].batch) && (s'.jobs[j].stage.RolledBack? <==> s.jobs[j].stage.RolledBack?)
    requires forall j :: |s.jobs| <= j < |s'.jobs| ==> Paths(s'.jobs[j].batch) == {} && !s'.jobs[j].stage.RolledBack?
    ensures FilesOk(s')
  {
    forall p | p in s'.disk
      ensures HasOwner(s'.jobs, p)
    {
      OwnerKept(s.jobs, s'.jobs, p);
    }
  }

  // A processed file goes to an unused temporary path, or the batch is rolled back.
  lemma ProcessShape(l: Limits, s: State, step: Step)
    requires step.Process? && Apply(l, s, step) != s
    ensures var (s', j) := (Apply(l, s, step), step.job);
      && j < |s.jobs| && (s' == RollbackJob(s, j) || (
            && |s'.jobs| == |s.jobs| && s'.jobs == s.jobs[j := s'.jobs[j]] && Unused(s, step.temp) && s'.disk == s.disk + {step.temp}
            && !s.jobs[j].stage.RolledBack? && !s'.jobs[j].stage.RolledBack?
            && s'.jobs[j].batch.moved == s.jobs[j].batch.moved
            && exists size :: s'.jobs[j].batch.files == s.jobs[j].batch.files + [Stored(step.temp, size)]))
  {
  }

  lemma ProcessFiles(l: Limits, s: State, step: Step)
    requires FilesOk(s) && step.Process?
    ensures FilesOk(Apply(l, s, step))
  {
    var s', j := Apply(l, s, step), step.job;
    if s' != s {
      ProcessShape(l, s, step);
      if s' == RollbackJob(s, j) {
        RollbackFiles(s, j);
      } else {
        var size :| s'.jobs[j].batch.files == s.jobs[j].batch.files + [Stored(step.temp, size)];
        PathAdded(s, s', j, step.temp);
      }
    }
  }

  lemma MoveFiles(l: Limits, s: State, step: Step)
    requires FilesOk(s) && step.Move?
    ensures FilesOk(Apply(l, s, step))
  {
    var s' := Apply(l, s, step);
    if s' != s {
      if step.ok {
        PathAdded(s, s', step.job, step.destination);
      } else {
        RollbackFiles(s, step.job);
      }
    }
  }

  lemma QuietFiles(l: Limits, s: State, step: Step)
    requires FilesOk(s) && (step.Open? || step.Release? || step.Insert? || IsCleanup(step))
    ensures FilesOk(Apply(l, s, step))
  {
    var s' := Apply(l, s, step);
    if step.Open? && s'.jobs != s.jobs {
      assert s'.jobs == s.jobs + [NewJob(l, step.owner, step.inputs)];
    }
    PathsKept(s, s');
  }

  lemma FilesStep(l: Limits, s: State, step: Step)
    requires FilesOk(s)
    ensures FilesOk(Apply(l, s, step))
  {
    match step
    case Process(_, _, _) => ProcessFiles(l, s, step);
    case Move(_, _, _) => MoveFiles(l, s, step);
    case Rollback(j) =>
      if j < |s.jobs| {
        RollbackFiles(s, j);
      }
    case _ => QuietFiles(l, s, step);
  }

  /** After a rollback, whatever came before and whatever follows, none of the batch's
      temporary or moved files exists and it holds no reservation; and every file on
      disk belongs to an upload that is in progress or finished. */
  lemma {:induction false} RollbackLeavesNothing(l: Limits, users: map<UserID, nat>, steps: seq<Step>)
    ensures var s := Run(l, users, steps);
      && FilesOk(s)
      && forall j :: 0 <= j < |s.jobs| && s.jobs[j].stage.RolledBack? ==>
           Paths(s.jobs[j].batch) !! s.disk && s.jobs[j].batch.reserved == 0
  {
    if steps != [] {
      var n := |steps| - 1;
      RollbackLeavesNothing(l, users, steps[..n]);
      FilesStep(l, Run(l, users, steps[..n]), steps[n]);
    }
    ReservationConserved(l, users, steps);
    var s := Run(l, users, steps);
    assert forall j :: 0 <= j < |s.jobs| ==> JobOk(l, s.jobs[j]);
  }

  // A batch that has released stays closed, and its upload ends inserted or rolled back.
  lemma ClosedForGood(l: Limits, s: State, step: Step, j: nat)
    requires Conserved(l, s) && j < |s.jobs| && s.jobs[j].batch.closed
    ensures var s' := Apply(l, s, step);
      && j < |s'.jobs| && s'.jobs[j].batch == s.jobs[j].batch
      && (s'.jobs[j].stage == s.jobs[j].stage || (s.jobs[j].stage.Committed? && s'.jobs[j].stage in {Inserted, RolledBack}))
  {
    assert JobOk(l, s.jobs[j]);
  }
}
