/** Cleanup of inactive groups. A run schedules the longest inactive groups and deletes
    those whose schedule has come; a message in between cancels the schedule. Both work on
    a limited batch, the oldest first. */
module GroupCleanup {
  import opened Wrappers

  type ID = string

  datatype Group = Group(lastActivity: int, scheduledFor: Option<int>, isProtected: bool)

  type Groups = map<ID, Group>

  datatype Config = Config(inactiveAfter: int, grace: int, batch: int, dryRun: bool)

  // A cleanup run reads the clock once, as `start`, and then schedules a batch and deletes
  // a batch in two transactions; other requests may come before, between and after them.
  // `Emergency` is the low-disk cleanup, which knows no grace.
  datatype Event =
    | Create(id: ID)
    | Post(id: ID, createdAt: int)
    | Protect(id: ID, on: bool)
    | Remove(id: ID)
    | MarkBatch(start: int, config: Config, batch: set<ID>)
    | DeleteMarked(start: int, config: Config, batch: set<ID>)
    | Emergency(removed: set<ID>)

  datatype Step = Step(now: int, event: Event)

  // ----- One run -----

  // Defaults stand in for values that make no sense.
  function Effective(c: Config): (e: Config)
    ensures c.inactiveAfter >= 1 && c.grace >= 1 && c.batch >= 1 ==> e == c
    ensures c.inactiveAfter <= 0 ==> e.inactiveAfter == 604800
    ensures c.grace <= 0 ==> e.grace == 86400
    ensures c.batch <= 0 ==> e.batch == 20
  {
    Config(
      if c.inactiveAfter <= 0 then 7 * 86400 else c.inactiveAfter,
      if c.grace <= 0 then 86400 else c.grace,
      if c.batch < 1 then 20 else c.batch, c.dryRun)
  }

  predicate Inactive(g: Group, cutoff: int) {
    !g.isProtected && g.lastActivity < cutoff
  }

  function Candidates(gs: Groups, cutoff: int): set<ID> {
    set id | id in gs && Inactive(gs[id], cutoff)
  }

  function Schedulable(gs: Groups, cutoff: int): set<ID> {
    set id | id in gs && Inactive(gs[id], cutoff) && gs[id].scheduledFor.None?
  }

  predicate IsDue(g: Group, now: int, cutoff: int) {
    Inactive(g, cutoff) && g.scheduledFor.Some? && g.scheduledFor.value <= now
  }

  function Due(gs: Groups, now: int, cutoff: int): set<ID> {
    set id | id in gs && IsDue(gs[id], now, cutoff)
  }

  // A batch: as many as the limit allows, none with a later key than one left out.
  ghost predicate Batch(eligible: set<ID>, key: map<ID, int>, limit: nat, batch: set<ID>)
    requires eligible <= key.Keys
  {
    && batch <= eligible
    && |batch| == (if |eligible| <= limit then |eligible| else limit)
    && forall x, y :: x in batch && y in eligible && y !in batch ==> key[x] <= key[y]
  }

  function Activity(gs: Groups): map<ID, int> {
    map id | id in gs :: gs[id].lastActivity
  }

  function Schedule(gs: Groups): map<ID, int> {
    map id | id in gs && gs[id].scheduledFor.Some? :: gs[id].scheduledFor.value
  }

  function Scheduled(gs: Groups, batch: set<ID>, at: int): Groups {
    map id | id in gs :: if id in batch then gs[id].(scheduledFor := Some(at)) else gs[id]
  }

  ghost predicate ScheduleBatch(gs: Groups, cutoff: int, limit: nat, batch: set<ID>) {
    Batch(Schedulable(gs, cutoff), Activity(gs), limit, batch)
  }

  ghost predicate DeleteBatch(gs: Groups, now: int, cutoff: int, limit: nat, batch: set<ID>) {
    Batch(Due(gs, now, cutoff), Schedule(gs), limit, batch)
  }

  // What the table yields for an ordered query with a limit.
  method OldestFirst(eligible: set<ID>, key: map<ID, int>, limit: nat) returns (batch: set<ID>)
    requires eligible <= key.Keys
    ensures Batch(eligible, key, limit, batch)
  {
    batch := {};
    var left := eligible;
    while |batch| < limit && left != {}
      invariant batch <= eligible && left == eligible - batch && |batch| <= limit && |batch| + |left| == |eligible|
      invariant forall x, y :: x in batch && y in left ==> key[x] <= key[y]
      decreases |left|
    {
      var least := Oldest(left, key);
      batch, left := batch + {least}, left - {least};
    }
  }

  method Oldest(eligible: set<ID>, key: map<ID, int>) returns (x: ID)
    requires eligible != {} && eligible <= key.Keys
    ensures x in eligible && forall y :: y in eligible ==> key[x] <= key[y]
  {
    x :| x in eligible;
    var left := eligible - {x};
    while left != {}
      invariant left <= eligible && x in eligible
      invariant forall y :: y in eligible && y !in left ==> key[x] <= key[y]
      decreases |left|
    {
      var y :| y in left;
      if key[y] < key[x] {
        x := y;
      }
      left := left - {y};
    }
  }

  class Table {
    var groups: Groups

    method AddMessage(id: ID, createdAt: int)
      modifies this
      ensures groups == Apply(old(groups), Step(createdAt, Post(id, createdAt)))
    {
      if id in groups {
        groups := groups[id := groups[id].(lastActivity := createdAt, scheduledFor := None)];
      }
    }

    method ScheduleInactiveGroups(cutoff: int, at: int, limit: nat) returns (batch: set<ID>)
      modifies this
      ensures ScheduleBatch(old(groups), cutoff, limit, batch)
      ensures groups == Scheduled(old(groups), batch, at)
    {
      batch := OldestFirst(Schedulable(groups, cutoff), Activity(groups), limit);
      groups := map id | id in groups :: if id in batch then groups[id].(scheduledFor := Some(at)) else groups[id];
    }

    method DeleteScheduledGroups(now: int, cutoff: int, limit: nat) returns (batch: set<ID>)
      modifies this
      ensures DeleteBatch(old(groups), now, cutoff, limit, batch)
      ensures groups == old(groups) - batch
    {
      batch := OldestFirst(Due(groups, now, cutoff), Schedule(groups), limit);
      var left := batch;
      while left != {}
        invariant left <= batch && groups == old(groups) - (batch - left)
        decreases |left|
      {
        var id :| id in left;
        groups := groups - {id};
        left := left - {id};
      }
    }

    // As steps these are the two of a run without anything in between; a dry run does nothing.
    method RunCleanup(now: int, config: Config) returns (scheduled: set<ID>, deleted: set<ID>)
      modifies this
      ensures config.dryRun ==> groups == old(groups) && scheduled == {} && deleted == {}
      ensures !config.dryRun ==>
        var mark, delete := Step(now, MarkBatch(now, config, scheduled)), Step(now, DeleteMarked(now, config, deleted));
        && Possible(old(groups), mark) && Possible(Apply(old(groups), mark), delete)
        && groups == Apply(Apply(old(groups), mark), delete)
    {
      var c := Effective(config);
      var candidates := Candidates(groups, now - c.inactiveAfter);
      if candidates == {} || c.dryRun {
        NoCandidatesNoWork(groups, now, config);
        return {}, {};
      }
      scheduled := ScheduleInactiveGroups(now - c.inactiveAfter, now + c.grace, c.batch);
      assert groups == Apply(old(groups), Step(now, MarkBatch(now, config, scheduled)));
      deleted := DeleteScheduledGroups(now, now - c.inactiveAfter, c.batch);
    }
  }

  // ----- Runs -----

  function Apply(gs: Groups, step: Step): Groups {
    match step.event
    case Create(id) => if id in gs then gs else gs[id := Group(step.now, None, false)]
    case Post(id, createdAt) =>
      if id in gs then gs[id := gs[id].(lastActivity := createdAt, scheduledFor := None)] else gs
    case Protect(id, on) => if id in gs then gs[id := gs[id].(isProtected := on)] else gs
    case Remove(id) => gs - {id}
    case MarkBatch(start, c, batch) => Scheduled(gs, batch, start + Effective(c).grace)
    case DeleteMarked(_, _, batch) => gs - batch
    case Emergency(removed) => gs - removed
  }

  function Before(steps: seq<Step>, n: nat): Groups
    requires n <= |steps|
  {
    if n == 0 then map[] else Apply(Before(steps, n - 1), steps[n - 1])
  }

  ghost predicate Possible(gs: Groups, step: Step) {
    match step.event
    case MarkBatch(start, c, batch) => ScheduleBatch(gs, start - Effective(c).inactiveAfter, Effective(c).batch, batch)
    case DeleteMarked(start, c, batch) => DeleteBatch(gs, start, start - Effective(c).inactiveAfter, Effective(c).batch, batch)
    case _ => true
  }

  ghost predicate Feasible(steps: seq<Step>, n: nat)
    requires n <= |steps|
  {
    n == 0 || (Feasible(steps, n - 1) && Possible(Before(steps, n - 1), steps[n - 1]))
  }

  // The step schedules the group, which is inactive, unprotected and not yet scheduled.
  predicate Marks(gs: Groups, step: Step, id: ID) {
    && step.event.MarkBatch? && id in step.event.batch && id in gs && gs[id].scheduledFor.None?
    && Inactive(gs[id], step.event.start - Effective(step.event.config).inactiveAfter)
  }

  function MarkTime(step: Step): int {
    if step.event.MarkBatch? then step.event.start + Effective(step.event.config).grace else 0
  }

  predicate PostsAt(steps: seq<Step>, i: nat, id: ID)
    requires i < |steps|
  {
    steps[i].event.Post? && steps[i].event.id == id
  }

  // From after step `m` up to step `n` the group exists and gets no message.
  ghost predicate Quiet(steps: seq<Step>, m: nat, n: nat, id: ID)
    requires n <= |steps|
  {
    forall i :: m < i < n ==> id in Before(steps, i) && !PostsAt(steps, i, id)
  }

  lemma ScheduleStep(gs: Groups, step: Step, id: ID, at: int)
    requires Possible(gs, step) && id in Apply(gs, step) && Apply(gs, step)[id].scheduledFor == Some(at)
    ensures id in gs
    ensures gs[id].scheduledFor.Some? ==> gs[id].scheduledFor == Some(at) && !(step.event.Post? && step.event.id == id)
    ensures gs[id].scheduledFor.None? ==> Marks(gs, step, id) && at == MarkTime(step)
  {
  }

  // Step `m` scheduled the group for `at`, and it has been there without a message since.
  ghost predicate Waited(steps: seq<Step>, m: nat, n: nat, id: ID, at: int)
    requires n <= |steps|
  {
    m < n && Marks(Before(steps, m), steps[m], id) && MarkTime(steps[m]) == at && Quiet(steps, m, n, id)
  }

  /** A schedule was set by a run that found the group inactive, and the group has had no
      message since. */
  lemma {:induction false} ScheduleIsQuiet(steps: seq<Step>, n: nat, id: ID, at: int) returns (m: nat)
    requires n <= |steps| && Feasible(steps, n) && id in Before(steps, n) && Before(steps, n)[id].scheduledFor == Some(at)
    ensures Waited(steps, m, n, id, at)
  {
    var gs := Before(steps, n - 1);
    ScheduleStep(gs, steps[n - 1], id, at);
    if gs[id].scheduledFor.Some? {
      m := ScheduleIsQuiet(steps, n - 1, id, at);
    } else {
      m := n - 1;
    }
  }

  // Step `m` is the latest activity of the group before step `n`: its creation or a message.
  ghost predicate LatestActivity(steps: seq<Step>, m: nat, n: nat, id: ID, at: int)
    requires n <= |steps|
  {
    && m < n && Quiet(steps, m, n, id)
    && if id in Before(steps, m) then PostsAt(steps, m, id) && steps[m].event.createdAt == at
       else steps[m].event == Create(id) && steps[m].now == at
  }

  /** The activity of a group is the time of its last message, or of its creation. */
  lemma {:induction false} ActivityIsLatest(steps: seq<Step>, n: nat, id: ID) returns (m: nat)
    requires n <= |steps| && id in Before(steps, n)
    ensures LatestActivity(steps, m, n, id, Before(steps, n)[id].lastActivity)
  {
    m := n - 1;
    if id in Before(steps, m) && !PostsAt(steps, m, id) {
      m := ActivityIsLatest(steps, n - 1, id);
    }
  }

  // The group goes into a batch of the step, which belongs to a run that began at `start`.
  predicate IsPicked(step: Step, id: ID, start: int, c: Config) {
    match step.event
    case MarkBatch(s, config, batch) => id in batch && s == start && config == c
    case DeleteMarked(s, config, batch) => id in batch && s == start && config == c
    case _ => false
  }

  /** Whenever a run schedules or deletes a group, the group's latest activity is more than
      the configured time before the start of the run. */
  lemma PickedIsStale(steps: seq<Step>, n: nat, id: ID, start: int, c: Config) returns (m: nat, at: int)
    requires n < |steps| && Feasible(steps, n + 1) && IsPicked(steps[n], id, start, c)
    ensures LatestActivity(steps, m, n, id, at)
    ensures at + (if c.inactiveAfter <= 0 then 7 * 86400 else c.inactiveAfter) < start
  {
    var gs := Before(steps, n);
    assert Possible(gs, steps[n]);
    assert id in gs && Inactive(gs[id], start - Effective(c).inactiveAfter);
    m := ActivityIsLatest(steps, n, id);
    at := gs[id].lastActivity;
  }

  /** So a group that got a message within that time is neither scheduled nor deleted, when
      its messages come in the order of their times. */
  lemma RecentMessageProtects(steps: seq<Step>, i: nat, n: nat, id: ID, start: int, c: Config)
    requires i < n < |steps| && Feasible(steps, n + 1) && PostsAt(steps, i, id)
    requires forall k :: i <= k < n ==> id in Before(steps, k)
    requires forall k :: i <= k < n && PostsAt(steps, k, id) ==> steps[i].event.createdAt <= steps[k].event.createdAt
    requires steps[i].event.createdAt + (if c.inactiveAfter <= 0 then 7 * 86400 else c.inactiveAfter) >= start
    ensures !IsPicked(steps[n], id, start, c)
  {
    if IsPicked(steps[n], id, start, c) {
      var m, at := PickedIsStale(steps, n, id, start, c);
    }
  }

  lemma DeletedWasDue(gs: Groups, step: Step, id: ID)
    requires Possible(gs, step) && step.event.DeleteMarked? && id in gs && id !in Apply(gs, step)
    ensures IsDue(gs[id], step.event.start, step.event.start - Effective(step.event.config).inactiveAfter)
  {
    assert id in Due(gs, step.event.start, step.event.start - Effective(step.event.config).inactiveAfter);
  }

  /** A group that a cleanup run deletes was scheduled by a run that began at least its
      grace before this one began, had been inactive then, is inactive and unprotected now,
      and got no message in between, with other requests between any two transactions. */
  lemma GraceIsHonoured(steps: seq<Step>, n: nat, id: ID) returns (m: nat, at: int)
    requires n < |steps| && Feasible(steps, n + 1) && steps[n].event.DeleteMarked?
    requires id in Before(steps, n) && id !in Apply(Before(steps, n), steps[n])
    ensures Waited(steps, m, n, id, at) && at <= steps[n].event.start
    ensures Inactive(Before(steps, n)[id], steps[n].event.start - Effective(steps[n].event.config).inactiveAfter)
  {
    var gs := Before(steps, n);
    DeletedWasDue(gs, steps[n], id);
    at := gs[id].scheduledFor.value;
    m := ScheduleIsQuiet(steps, n, id, at);
  }

  /** A message between the two transactions of a run saves its group. */
  lemma MessageSaves(steps: seq<Step>, n: nat, id: ID)
    requires n + 1 < |steps| && Feasible(steps, n + 2) && PostsAt(steps, n, id) && steps[n + 1].event.DeleteMarked?
    requires id in Before(steps, n)
    ensures id in Before(steps, n + 2)
  {
    var gs := Before(steps, n + 1);
    assert gs == Apply(Before(steps, n), steps[n]);
    if id !in Apply(gs, steps[n + 1]) {
      DeletedWasDue(gs, steps[n + 1], id);
    }
  }

  /** The early return on an empty candidate list skips nothing: scheduled groups that are
      due are candidates too, so both batches are empty. */
  lemma NoCandidatesNoWork(gs: Groups, now: int, config: Config)
    ensures Candidates(gs, now - Effective(config).inactiveAfter) == {} ==>
      && (forall batch :: Possible(gs, Step(now, MarkBatch(now, config, batch))) <==> batch == {})
      && (forall batch :: Possible(gs, Step(now, DeleteMarked(now, config, batch))) <==> batch == {})
    ensures Scheduled(gs, {}, now + Effective(config).grace) == gs && gs - {} == gs
  {
    var c := Effective(config);
    var cutoff := now - c.inactiveAfter;
    if Candidates(gs, cutoff) == {} {
      assert forall id :: id in gs ==> id in Candidates(gs, cutoff) || !Inactive(gs[id], cutoff);
      assert Schedulable(gs, cutoff) == {} && Due(gs, now, cutoff) == {};
    }
  }

  // ----- Which groups are there, and which go -----

  predicate RemovesAt(steps: seq<Step>, i: nat, id: ID)
    requires i < |steps|
  {
    match steps[i].event
    case Remove(x) => x == id
    case DeleteMarked(_, _, batch) => id in batch
    case Emergency(removed) => id in removed
    case _ => false
  }

  ghost predicate Stays(steps: seq<Step>, m: nat, n: nat, id: ID)
    requires n <= |steps|
  {
    m < n && steps[m].event == Create(id) && forall i :: m < i < n ==> !RemovesAt(steps, i, id)
  }

  /** Over every run, a group is there if and only if it has been created and not removed since. */
  lemma {:induction false} ExistsIff(steps: seq<Step>, n: nat, id: ID)
    requires n <= |steps|
    ensures id in Before(steps, n) <==> exists m :: Stays(steps, m, n, id)
  {
    if n > 0 {
      ExistsIff(steps, n - 1, id);
      if m: nat :| Stays(steps, m, n, id) && m < n - 1 {
        assert Stays(steps, m, n - 1, id) && !RemovesAt(steps, n - 1, id);
      }
      if steps[n - 1].event == Create(id) {
        assert Stays(steps, n - 1, n, id);
      } else if id in Before(steps, n) {
        var m :| Stays(steps, m, n - 1, id);
        assert Stays(steps, m, n, id);
      }
    }
  }

  // Nobody writes to the group, protects it, gives up its protection or removes it by hand.
  predicate Ignores(step: Step, id: ID) {
    match step.event
    case Post(x, _) => x != id
    case Protect(x, _) => x != id
    case Remove(x) => x != id
    case Emergency(removed) => id !in removed
    case _ => true
  }

  /** Whatever runs there are, a group that has been protected stays, and stays protected. */
  lemma {:induction false} ProtectedSurvives(steps: seq<Step>, m: nat, n: nat, id: ID)
    requires m < n <= |steps| && Feasible(steps, n) && id in Before(steps, m) && steps[m].event == Protect(id, true)
    requires forall i :: m < i < n && !PostsAt(steps, i, id) ==> Ignores(steps[i], id)
    ensures id in Before(steps, n) && Before(steps, n)[id].isProtected
  {
    if m < n - 1 {
      ProtectedSurvives(steps, m, n - 1, id);
      if id !in Before(steps, n) {
        DeletedWasDue(Before(steps, n - 1), steps[n - 1], id);
      }
    }
  }

  // A scheduled group that is left alone keeps its schedule.
  lemma {:induction false} StaysMarked(steps: seq<Step>, m: nat, n: nat, id: ID)
    requires m < n <= |steps| && Feasible(steps, n) && Marks(Before(steps, m), steps[m], id)
    requires forall i :: m < i < n ==> Ignores(steps[i], id) && !RemovesAt(steps, i, id)
    ensures id in Before(steps, n)
    ensures Before(steps, n)[id] == Before(steps, m)[id].(scheduledFor := Some(MarkTime(steps[m])))
  {
    if m < n - 1 {
      StaysMarked(steps, m, n - 1, id);
    }
  }

  /** A group in which nothing has happened for the configured time is scheduled, unless it
      is protected or scheduled already or the batch is full. */
  lemma StaleIsScheduled(gs: Groups, now: int, start: int, c: Config, batch: set<ID>, id: ID)
    requires Possible(gs, Step(now, MarkBatch(start, c, batch))) && id in gs && id !in batch
    requires !gs[id].isProtected && gs[id].scheduledFor.None?
    requires gs[id].lastActivity + (if c.inactiveAfter <= 0 then 7 * 86400 else c.inactiveAfter) < start
    ensures |batch| == if c.batch < 1 then 20 else c.batch
    ensures forall x :: x in batch ==> x in gs && !gs[x].isProtected && gs[x].lastActivity <= gs[id].lastActivity
  {
    FullBatch(Schedulable(gs, start - Effective(c).inactiveAfter), Activity(gs), Effective(c).batch, batch, id);
  }

  lemma FullBatch(eligible: set<ID>, key: map<ID, int>, limit: nat, batch: set<ID>, left: ID)
    requires eligible <= key.Keys && Batch(eligible, key, limit, batch) && left in eligible && left !in batch
    ensures |batch| == limit
  {
    SmallerSet(batch, eligible, left);
  }

  lemma SmallerSet(a: set<ID>, b: set<ID>, x: ID)
    requires a <= b && x in b && x !in a
    ensures |a| < |b|
  {
    assert b == a + (b - a);
  }

  /** And it is deleted: a scheduled group that is left alone goes with the first run that
      begins when its grace is over, unless that run's batch is full. */
  lemma NeglectedIsDeleted(steps: seq<Step>, m: nat, n: nat, id: ID, start: int, c: Config, batch: set<ID>)
    requires m < n < |steps| && Feasible(steps, n + 1) && steps[n].event == DeleteMarked(start, c, batch)
    requires Marks(Before(steps, m), steps[m], id)
    requires forall i :: m < i < n ==> Ignores(steps[i], id) && !RemovesAt(steps, i, id)
    requires var config := steps[m].event.config;
      && start >= steps[m].event.start + (if config.grace <= 0 then 86400 else config.grace)
      && Before(steps, m)[id].lastActivity + (if c.inactiveAfter <= 0 then 7 * 86400 else c.inactiveAfter) < start
    requires id !in batch
    ensures |batch| == if c.batch < 1 then 20 else c.batch
  {
    StaysMarked(steps, m, n, id);
    var gs, cutoff := Before(steps, n), start - Effective(c).inactiveAfter;
    assert Possible(gs, steps[n]) && id in Due(gs, start, cutoff);
    FullBatch(Due(gs, start, cutoff), Schedule(gs), Effective(c).batch, batch, id);
  }
}
