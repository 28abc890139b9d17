/** The attachment service and its batches as the objects that requests share.

    The foreign parts of a request are inputs: what an upload turns out to contain, the
    temporary name it gets, and where a file is moved to (None when the move fails).
    File removal succeeds. Each method is stated with the values and functions of
    module AttachmentStorage, whose lemmas are about every interleaving. */
module AttachmentService {
  import opened Wrappers
  import opened AttachmentStorage

  datatype Error = TooMany | TooLargeInput | QuotaExceeded | LowDisk | UnknownUser | Processing

  // One file of a request; `opens` is whether its stream can be opened.
  datatype Input = Input(declared: int, opens: bool, content: Content, temp: Path)

  function Sizes(inputs: seq<Input>): (r: seq<int>)
    ensures |r| == |inputs|
  {
    seq(|inputs|, i requires 0 <= i < |inputs| => inputs[i].declared)
  }

  function Temps(inputs: seq<Input>): set<Path> {
    set i | i in inputs :: i.temp
  }

  predicate Processes(l: Limits, i: Input) {
    i.opens && ProcessedSize(l, i.declared, i.content).Some?
  }

  function ProcessedFiles(l: Limits, inputs: seq<Input>): (r: seq<Stored>)
    requires forall i :: 0 <= i < |inputs| ==> Processes(l, inputs[i])
    ensures |r| == |inputs|
  {
    seq(|inputs|, i requires 0 <= i < |inputs| && Processes(l, inputs[i]) =>
      Stored(inputs[i].temp, ProcessedSize(l, inputs[i].declared, inputs[i].content).value))
  }

  // ----- The steps of a commit and of a whole request -----

  function ApplyAll(l: Limits, s: State, steps: seq<Step>): State {
    if steps == [] then s else Apply(l, ApplyAll(l, s, steps[..|steps| - 1]), steps[|steps| - 1])
  }

  function MoveStep(j: nat, destination: Option<Path>): Step {
    if destination.Some? then Move(j, true, destination.value) else Move(j, false, 0)
  }

  function Moves(j: nat, destinations: seq<Option<Path>>): seq<Step> {
    seq(|destinations|, i requires 0 <= i < |destinations| => MoveStep(j, destinations[i]))
  }

  // The moves up to the first that fails, or all moves and the release.
  function CommitSteps(j: nat, destinations: seq<Option<Path>>, n: nat): seq<Step>
    requires n <= |destinations|
    decreases |destinations| - n
  {
    if n == |destinations| then Moves(j, destinations) + [Release(j)]
    else if destinations[n].None? then Moves(j, destinations[..n + 1])
    else CommitSteps(j, destinations, n + 1)
  }

  lemma OneMove(l: Limits, s: State, j: nat, destinations: seq<Option<Path>>, i: nat)
    requires i < |destinations|
    ensures ApplyAll(l, s, Moves(j, destinations[..i + 1]))
         == Apply(l, ApplyAll(l, s, Moves(j, destinations[..i])), MoveStep(j, destinations[i]))
  {
    assert Moves(j, destinations[..i + 1])[..i] == Moves(j, destinations[..i]);
  }

  lemma {:induction false} CommitStepsFrom(j: nat, destinations: seq<Option<Path>>, n: nat, m: nat)
    requires n <= m <= |destinations| && forall i :: n <= i < m ==> destinations[i].Some?
    ensures CommitSteps(j, destinations, n) == CommitSteps(j, destinations, m)
    decreases m - n
  {
    if n < m {
      CommitStepsFrom(j, destinations, n + 1, m);
    }
  }

  lemma OneStepMore(l: Limits, s: State, steps: seq<Step>, step: Step)
    ensures ApplyAll(l, s, steps + [step]) == Apply(l, ApplyAll(l, s, steps), step)
  {
    assert (steps + [step])[..|steps|] == steps;
  }

  lemma CommitEnds(l: Limits, s: State, j: nat, destinations: seq<Option<Path>>)
    requires forall i :: 0 <= i < |destinations| ==> destinations[i].Some?
    requires var t := ApplyAll(l, s, Moves(j, destinations)); j < |t.jobs| && t.jobs[j].stage.Ready? && AllMoved(t.jobs[j].batch)
    ensures var t := ApplyAll(l, s, Moves(j, destinations));
      ApplyAll(l, s, CommitSteps(j, destinations, 0)) == t.(
        reserved := t.reserved - t.jobs[j].batch.reserved,
        jobs := t.jobs[j := Job(Closed(t.jobs[j].batch), t.jobs[j].inputs, Committed)])
  {
    CommitStepsFrom(j, destinations, 0, |destinations|);
    OneStepMore(l, s, Moves(j, destinations), Release(j));
  }

  lemma RequestRollsBack(l: Limits, s: State, steps: seq<Step>, j: nat)
    requires var t := ApplyAll(l, s, steps); j < |t.jobs| && !t.jobs[j].stage.Inserted?
    ensures ApplyAll(l, s, steps + [Rollback(j)]) == RollbackJob(ApplyAll(l, s, steps), j)
  {
    OneStepMore(l, s, steps, Rollback(j));
  }

  lemma RequestInserts(l: Limits, s: State, steps: seq<Step>, j: nat, now: nat)
    requires var t := ApplyAll(l, s, steps); j < |t.jobs| && t.jobs[j].stage.Committed? && AllMoved(t.jobs[j].batch)
    ensures var t := ApplyAll(l, s, steps);
      ApplyAll(l, s, steps + [Insert(j, now)]) == t.(
        rows := t.rows + NewRows(t.jobs[j].batch, now), jobs := t.jobs[j := t.jobs[j].(stage := Inserted)])
  {
    OneStepMore(l, s, steps, Insert(j, now));
  }

  // A file that moves to an unused place.
  lemma MovedOne(l: Limits, t: State, j: nat, d: Path)
    requires j < |t.jobs| && t.jobs[j].stage.Ready? && |t.jobs[j].batch.moved| < |t.jobs[j].batch.files| && Unused(t, d)
    ensures var b := t.jobs[j].batch;
      Apply(l, t, Move(j, true, d)) == t.(
        disk := t.disk - {b.files[|b.moved|].path} + {d},
        jobs := t.jobs[j := t.jobs[j].(batch := b.(moved := b.moved + [d]))])
  {
  }

  class Service {
    const limits: Limits
    var reserved: int
    var rows: seq<Row>
    var disk: set<Path>
    var users: map<UserID, nat>

    constructor (limits: Limits, users: map<UserID, nat>)
      ensures this.limits == limits && this.users == users && reserved == 0 && rows == [] && disk == {}
    {
      this.limits, this.users := limits, users;
      reserved, rows, disk := 0, [], {};
    }

    // The part of the shared state that a quota decision reads.
    function Quotas(): State
      reads this
    {
      State(reserved, [], rows, disk, users, 0, {})
    }

    method Reserve(owner: UserID, bytes: nat, now: nat, free: Option<nat>) returns (error: Option<Error>)
      modifies this`reserved
      ensures error.None? <==> CanReserve(limits, old(Quotas()), owner, bytes, now, free)
      ensures reserved == old(reserved) + if error.None? then bytes else 0
      ensures error == Some(LowDisk) ==> free.Some? && CanReserve(limits, old(Quotas()), owner, bytes, now, None)
      ensures error == Some(UnknownUser) <==> owner !in users
    {
      if owner !in users {
        return Some(UnknownUser);
      }
      var effective := EffectiveLimits(limits, users[owner], now);
      var daily := SumCreatedSince(rows, owner, now - 86400);
      var dailyExceeded := effective.maxUserDaily > 0 && daily + bytes > effective.maxUserDaily;
      if SumForOwner(rows, owner) + reserved + bytes > effective.maxUserStored || dailyExceeded
         || SumAll(rows) + reserved + bytes > effective.maxTotal {
        return Some(QuotaExceeded);
      }
      if free.Some? {
        if free.value < limits.minFree || free.value - limits.minFree < bytes {
          return Some(LowDisk);
        }
      }
      reserved := reserved + bytes;
      return None;
    }

    // On success the batch holds the whole reservation and every processed file; on
    // failure the reservation and the disk are as before.
    method Prepare(owner: UserID, inputs: seq<Input>, now: nat, free: Option<nat>)
      returns (error: Option<Error>, batch: UploadBatch?)
      requires Temps(inputs) !! disk
      modifies this`reserved, this`disk
      ensures error.None? <==>
        && InputsOk(limits, Sizes(inputs))
        && CanReserve(limits, old(Quotas()), owner, Reservation(limits, |inputs|), now, free)
        && forall i :: 0 <= i < |inputs| ==> Processes(limits, inputs[i])
      ensures error.Some? ==> reserved == old(reserved) && disk == old(disk)
      ensures error.None? ==>
        && batch != null && fresh(batch) && batch.service == this
        && batch.View() == Batch(owner, ProcessedFiles(limits, inputs), [], Reservation(limits, |inputs|), false)
        && reserved == old(reserved) + Reservation(limits, |inputs|) && disk == old(disk) + Temps(inputs)
    {
      batch := null;
      if |inputs| == 0 || |inputs| > limits.maxFiles {
        return Some(TooMany), null;
      }
      var bytes := 0;
      for i := 0 to |inputs|
        invariant bytes == Reservation(limits, i)
        invariant forall k :: 0 <= k < i ==> !TooLarge(limits, Sizes(inputs)[k])
      {
        if TooLarge(limits, inputs[i].declared) {
          assert TooLarge(limits, Sizes(inputs)[i]);
          return Some(TooLargeInput), null;
        }
        bytes := bytes + limits.maxArchive;
      }
      error := Reserve(owner, bytes, now, free);
      if error.Some? {
        return error, null;
      }
      error, batch := ProcessAll(owner, inputs, bytes);
    }

    // Processes every file into a new batch, or rolls the batch back.
    method ProcessAll(owner: UserID, inputs: seq<Input>, bytes: nat) returns (error: Option<Error>, batch: UploadBatch?)
      requires Temps(inputs) !! disk
      modifies this`reserved, this`disk
      ensures error.None? <==> forall i :: 0 <= i < |inputs| ==> Processes(limits, inputs[i])
      ensures error.Some? ==> batch == null && reserved == old(reserved) - bytes && disk == old(disk)
      ensures error.None? ==>
        && batch != null && fresh(batch) && batch.service == this
        && batch.View() == Batch(owner, ProcessedFiles(limits, inputs), [], bytes, false)
        && reserved == old(reserved) && disk == old(disk) + Temps(inputs)
    {
      error := None;
      batch := new UploadBatch(this, owner, bytes);
      for i := 0 to |inputs|
        invariant batch.owner == owner && batch.service == this && batch.Valid() && !batch.closed
        invariant batch.moved == [] && batch.reserved == bytes && reserved == old(reserved)
        invariant forall k :: 0 <= k < i ==> Processes(limits, inputs[k])
        invariant |batch.files| == i && forall k :: 0 <= k < i ==>
          batch.files[k] == Stored(inputs[k].temp, ProcessedSize(limits, inputs[k].declared, inputs[k].content).value)
        invariant disk == old(disk) + Temps(inputs[..i])
      {
        var size := ProcessedSize(limits, inputs[i].declared, inputs[i].content);
        if !inputs[i].opens || size.None? {
          assert Paths(batch.View()) == Temps(inputs[..i]);
          batch.Rollback();
          return Some(Processing), null;
        }
        disk := disk + {inputs[i].temp};
        batch.files := batch.files + [Stored(inputs[i].temp, size.value)];
        assert Temps(inputs[..i + 1]) == Temps(inputs[..i]) + {inputs[i].temp};
      }
      assert inputs[..|inputs|] == inputs;
      assert batch.files == ProcessedFiles(limits, inputs);
    }

    method InsertRows(batch: UploadBatch, now: nat)
      requires |batch.moved| == |batch.files|
      modifies this`rows
      ensures rows == old(rows) + NewRows(batch.View(), now)
    {
      rows := rows + NewRows(batch.View(), now);
    }

    // The order of effects of SendWithAttachments: `accepted` stands for the checks
    // before the commit, `inserted` for the outcome of the metadata transaction. As steps of
    // the upload these are those of the commit and an insertion, or end with a rollback.
    method Send(batch: UploadBatch, accepted: bool, destinations: seq<Option<Path>>, inserted: bool, now: nat, ghost s: State, ghost j: nat)
      returns (ok: bool, ghost steps: seq<Step>)
      requires batch.service == this && batch.Valid() && batch.moved == []
      requires batch.DestinationsOk(destinations)
      requires batch.IsJob(s, j) && s.jobs[j].stage.Ready? && !batch.closed && batch.NewPlaces(s, j, destinations)
      modifies this`reserved, this`disk, this`rows, batch`moved, batch`reserved, batch`closed
      ensures ok <==> accepted && inserted && forall i :: 0 <= i < |batch.files| ==> destinations[i].Some?
      ensures reserved == old(reserved) - old(batch.reserved) && batch.closed && batch.reserved == 0
      ensures !ok ==> rows == old(rows) && Paths(batch.View()) !! disk
      ensures ok ==>
        && |rows| == |old(rows)| + |batch.files| && rows[..|old(rows)|] == old(rows)
        && forall i :: 0 <= i < |batch.files| ==>
             rows[|old(rows)| + i] == Row(batch.owner, batch.files[i].size, destinations[i].value, now)
             && destinations[i].value in disk
      ensures steps == (if accepted then CommitSteps(j, destinations, 0) else []) + [if ok then Insert(j, now) else Rollback(j)]
      ensures batch.IsJob(ApplyAll(limits, s, steps), j)
    {
      steps := [];
      if accepted {
        ok := batch.Commit(destinations, s, j);
        steps := CommitSteps(j, destinations, 0);
      }
      if !accepted || !ok || !inserted {
        RequestRollsBack(limits, s, steps, j);
        batch.Rollback();
        return false, steps + [Step.Rollback(j)];
      }
      RequestInserts(limits, s, steps, j, now);
      InsertRows(batch, now);
      return true, steps + [Insert(j, now)];
    }
  }

  class UploadBatch {
    const service: Service
    const owner: UserID
    var files: seq<Stored>
    var moved: seq<Path>
    var reserved: nat
    var closed: bool

    constructor (service: Service, owner: UserID, reserved: nat)
      ensures this.service == service && View() == Batch(owner, [], [], reserved, false)
    {
      this.service, this.owner, this.reserved := service, owner, reserved;
      files, moved, closed := [], [], false;
    }

    function View(): Batch
      reads this
    {
      Batch(owner, files, moved, reserved, closed)
    }

    ghost predicate Valid()
      reads this
    {
      closed ==> reserved == 0
    }

    // The batch is job `j` of a state of the service.
    ghost predicate IsJob(s: State, j: nat)
      reads this, service
    {
      && j < |s.jobs| && s.jobs[j].batch == View()
      && s.reserved == service.reserved && s.disk == service.disk && s.rows == service.rows && s.users == service.users
    }

    // No other upload of the state has used these places either.
    ghost predicate NewPlaces(s: State, j: nat, destinations: seq<Option<Path>>) {
      forall i, k :: 0 <= i < |destinations| && destinations[i].Some? && 0 <= k < |s.jobs| && k != j ==>
        destinations[i].value !in Paths(s.jobs[k].batch)
    }

    // One new, unused place for every file.
    ghost predicate DestinationsOk(destinations: seq<Option<Path>>)
      reads this, service
    {
      && |destinations| == |files|
      && (forall i, k :: 0 <= i < k < |destinations| && destinations[i].Some? ==> destinations[i] != destinations[k])
      && (forall i :: 0 <= i < |destinations| && destinations[i].Some? ==>
            destinations[i].value !in service.disk && forall f :: f in files ==> f.path != destinations[i].value)
    }

    method Release()
      modifies this`reserved, service`reserved
      ensures service.reserved == old(service.reserved) - old(reserved) && reserved == 0
    {
      if reserved == 0 {
        return;
      }
      service.reserved := service.reserved - reserved;
      reserved := 0;
    }

    method Rollback()
      requires Valid()
      modifies this`reserved, this`closed, service`reserved, service`disk
      ensures View() == Closed(old(View())) && service.reserved == old(service.reserved) - old(reserved)
      ensures service.disk == old(service.disk) - Paths(View())
    {
      for i := 0 to |files|
        invariant View() == old(View()) && service.reserved == old(service.reserved)
        invariant service.disk == old(service.disk) - (set f | f in files[..i] :: f.path)
      {
        service.disk := service.disk - {files[i].path};
        assert files[..i + 1] == files[..i] + [files[i]];
      }
      assert files[..|files|] == files;
      for i := 0 to |moved|
        invariant View() == old(View()) && service.reserved == old(service.reserved)
        invariant service.disk == old(service.disk) - (set f | f in files :: f.path) - (set p | p in moved[..i])
      {
        service.disk := service.disk - {moved[i]};
        assert moved[..i + 1] == moved[..i] + [moved[i]];
      }
      assert moved[..|moved|] == moved;
      if !closed {
        Release();
        closed := true;
      }
    }

    method Commit(destinations: seq<Option<Path>>, ghost s: State, ghost j: nat) returns (ok: bool)
      requires Valid()
      requires !closed ==>
        && moved == [] && DestinationsOk(destinations)
        && IsJob(s, j) && s.jobs[j].stage.Ready? && NewPlaces(s, j, destinations)
      modifies this`moved, this`reserved, this`closed, service`reserved, service`disk
      ensures ok <==> !old(closed) && forall i :: 0 <= i < |files| ==> destinations[i].Some?
      ensures old(closed) ==> View() == old(View()) && service.reserved == old(service.reserved) && service.disk == old(service.disk)
      ensures !old(closed) ==> closed && reserved == 0 && service.reserved == old(service.reserved) - old(reserved)
      ensures !ok && !old(closed) ==> Paths(View()) !! service.disk
      ensures ok ==> |moved| == |files| && forall i :: 0 <= i < |files| ==> Some(moved[i]) == destinations[i] && moved[i] in service.disk
      ensures ok ==> forall f :: f in files ==> f.path !in service.disk
      ensures !old(closed) ==> IsJob(ApplyAll(service.limits, s, CommitSteps(j, destinations, 0)), j)
      ensures ok ==> ApplyAll(service.limits, s, CommitSteps(j, destinations, 0)).jobs[j].stage.Committed?
      ensures !ok && !old(closed) ==> ApplyAll(service.limits, s, CommitSteps(j, destinations, 0)).jobs[j].stage.RolledBack?
    {
      if closed {
        return false;
      }
      ok := MoveAll(destinations, s, j);
      if !ok {
        return false;
      }
      CommitEnds(service.limits, s, j, destinations);
      Release();
      closed := true;
    }

    // Moves every file, or rolls the batch back.
    method MoveAll(destinations: seq<Option<Path>>, ghost s: State, ghost j: nat) returns (ok: bool)
      requires !closed && moved == [] && DestinationsOk(destinations)
      requires IsJob(s, j) && s.jobs[j].stage.Ready? && NewPlaces(s, j, destinations)
      modifies this`moved, this`reserved, this`closed, service`reserved, service`disk
      ensures ok <==> forall i :: 0 <= i < |files| ==> destinations[i].Some?
      ensures ok ==> AllAt(destinations, |files|) && !closed && reserved == old(reserved) && service.reserved == old(service.reserved)
      ensures ok ==> IsReady(ApplyAll(service.limits, s, Moves(j, destinations)), j)
      ensures !ok ==> closed && reserved == 0 && service.reserved == old(service.reserved) - old(reserved) && Paths(View()) !! service.disk
      ensures !ok ==> IsRolledBack(ApplyAll(service.limits, s, CommitSteps(j, destinations, 0)), j)
    {
      ghost var l, t := service.limits, s;
      assert Moves(j, destinations[..0]) == [];
      for i := 0 to |files|
        invariant !closed && reserved == old(reserved) && service.reserved == old(service.reserved)
        invariant AllAt(destinations, i)
        invariant forall k :: i <= k < |files| && destinations[k].Some? ==> destinations[k].value !in service.disk
        invariant t == ApplyAll(l, s, Moves(j, destinations[..i])) && IsReady(t, j) && NewPlaces(t, j, destinations)
      {
        OneMove(l, s, j, destinations, i);
        if destinations[i].None? {
          CommitStepsFrom(j, destinations, 0, i);
          Rollback();
          return false;
        }
        MoveOne(destinations, i, t, j);
        t := Apply(l, t, Move(j, true, destinations[i].value));
      }
      assert destinations[..|files|] == destinations;
      return true;
    }

    ghost predicate IsReady(s: State, j: nat)
      reads this, service
    {
      IsJob(s, j) && s.jobs[j].stage.Ready?
    }

    ghost predicate IsRolledBack(s: State, j: nat)
      reads this, service
    {
      IsJob(s, j) && s.jobs[j].stage.RolledBack?
    }

    // The first `n` files are at their places.
    ghost predicate AllAt(destinations: seq<Option<Path>>, n: nat)
      reads this, service
    {
      && |moved| == n <= |files| == |destinations|
      && (forall k :: 0 <= k < n ==> Some(moved[k]) == destinations[k] && moved[k] in service.disk)
      && forall k :: 0 <= k < n ==> files[k].path !in service.disk
    }

    method MoveOne(destinations: seq<Option<Path>>, i: nat, ghost t: State, ghost j: nat)
      requires i < |files| && !closed && AllAt(destinations, i) && destinations[i].Some?
      requires forall a, b :: 0 <= a < b < |destinations| && destinations[a].Some? ==> destinations[a] != destinations[b]
      requires forall k :: 0 <= k < |destinations| && destinations[k].Some? ==> forall f :: f in files ==> f.path != destinations[k].value
      requires forall k :: i <= k < |files| && destinations[k].Some? ==> destinations[k].value !in service.disk
      requires IsReady(t, j) && NewPlaces(t, j, destinations)
      modifies this`moved, service`disk
      ensures AllAt(destinations, i + 1)
      ensures forall k :: i < k < |files| && destinations[k].Some? ==> destinations[k].value !in service.disk
      ensures var u := Apply(service.limits, t, Move(j, true, destinations[i].value));
        IsReady(u, j) && NewPlaces(u, j, destinations)
    {
      ghost var d := destinations[i].value;
      assert forall k :: 0 <= k < i ==> moved[k] != d;
      assert d !in Paths(View());
      assert Unused(t, d);
      MovedOne(service.limits, t, j, d);
      service.disk := service.disk - {files[i].path} + {destinations[i].value};
      moved := moved + [destinations[i].value];
    }
  }
}
