/** The anti-spam layer for group messages. A first offence earns a warning, a second one
    within the refill period a cooldown whose length climbs with each repetition; similar
    messages of several users earn the group a stored warning, and enough of those ask for
    the group's isolation. */
module SpamGuard {
  import opened Wrappers

  type ID = string

  const DAY: int := 86400
  const SPAM_WINDOW: int := 30 * DAY
  const SPAM_LIMIT: nat := 3

  datatype Cooldown = Cooldown(level: nat, until: int, last: int)

  datatype Warning = Warning(group: ID, at: int)

  // What the detectors and the limiters say about one message, and how many similar
  // messages of how many users the group has seen in the last refill period.
  datatype Message = Message(
    group: ID, user: ID, tooLong: bool, intervalOk: bool, repeated: bool, nearDuplicate: bool, content: bool,
    userOk: bool, groupOk: bool, similar: nat, users: nat)

  // `Restart` is a restart of the server, which forgets whom it has warned.
  datatype Event = Check(message: Message) | Restart

  datatype Outcome = TooLong | RateLimited | Warned | Cooled | Passed

  datatype State = State(warned: map<ID, int>, cooldowns: map<(ID, ID), Cooldown>, rows: seq<Warning>)

  // ----- Stored warnings of groups -----

  function Recent(rows: seq<Warning>, cutoff: int): seq<Warning> {
    if rows == [] then []
    else
      var rest, last := Recent(rows[..|rows| - 1], cutoff), rows[|rows| - 1];
      if last.at >= cutoff then rest + [last] else rest
  }

  // How many warnings of the group are not older than `cutoff`.
  function Count(rows: seq<Warning>, group: ID, cutoff: int): nat {
    if rows == [] then 0
    else
      var last := rows[|rows| - 1];
      Count(rows[..|rows| - 1], group, cutoff) + if last.group == group && last.at >= cutoff then 1 else 0
  }

  // Whether a warning at `now` is stored, given the table after pruning.
  predicate Creates(rows: seq<Warning>, group: ID, now: int, cooldown: int) {
    Count(rows, group, now - cooldown + 1) == 0
  }

  function Stored(rows: seq<Warning>, group: ID, now: int, cooldown: int, window: int): seq<Warning> {
    var kept := Recent(rows, now - window);
    if Creates(kept, group, now, cooldown) then kept + [Warning(group, now)] else kept
  }

  // ----- One message -----

  function Pause(refill: int): int {
    if refill <= 0 then 60 else refill
  }

  function Length(level: nat): int {
    if level <= 1 then 60 else if level == 2 then 300 else if level == 3 then 1800 else 7200
  }

  predicate Blocked(s: State, m: Message, now: int) {
    (m.group, m.user) in s.cooldowns && s.cooldowns[(m.group, m.user)].until > now
  }

  predicate OnNotice(s: State, user: ID, now: int) {
    user in s.warned && s.warned[user] > now
  }

  predicate IsSpam(m: Message) {
    m.repeated || m.nearDuplicate || m.content || !m.userOk || !m.groupOk
  }

  function Judge(s: State, m: Message, now: int): Outcome {
    if m.tooLong then TooLong
    else if Blocked(s, m, now) || !m.intervalOk then RateLimited
    else if !IsSpam(m) then Passed
    else if OnNotice(s, m.user, now) then Cooled
    else Warned
  }

  predicate Offends(o: Outcome) {
    o == Warned || o == Cooled
  }

  function Raised(before: Option<Cooldown>, now: int): Cooldown {
    var level := if before.None? || now - before.value.last > DAY then 0 else before.value.level;
    var next := if level + 1 <= 4 then level + 1 else 4;
    Cooldown(next, now + Length(next), now)
  }

  function Lookup(cooldowns: map<(ID, ID), Cooldown>, key: (ID, ID)): Option<Cooldown> {
    if key in cooldowns then Some(cooldowns[key]) else None
  }

  predicate Suspicious(m: Message) {
    m.similar >= 3 && m.users >= 2
  }

  function NextWarned(s: State, m: Message, now: int, refill: int): map<ID, int> {
    match Judge(s, m, now)
    case Warned => s.warned[m.user := now + refill]
    case Passed => s.warned - {m.user}
    case _ => s.warned
  }

  function NextCooldowns(s: State, m: Message, now: int): map<(ID, ID), Cooldown> {
    var key := (m.group, m.user);
    if Judge(s, m, now) == Cooled then s.cooldowns[key := Raised(Lookup(s.cooldowns, key), now)] else s.cooldowns
  }

  function NextRows(s: State, m: Message, now: int, refill: int): seq<Warning> {
    if Offends(Judge(s, m, now)) && Suspicious(m) then Stored(s.rows, m.group, now, Pause(refill), SPAM_WINDOW) else s.rows
  }

  function Apply(s: State, now: int, e: Event, refill: int): State {
    match e
    case Restart => s.(warned := map[])
    case Check(m) => State(NextWarned(s, m, now, refill), NextCooldowns(s, m, now), NextRows(s, m, now, refill))
  }

  // Whether an offending message has a new warning of its group stored.
  predicate Stores(rows: seq<Warning>, m: Message, now: int, refill: int) {
    Suspicious(m) && Creates(Recent(rows, now - SPAM_WINDOW), m.group, now, Pause(refill))
  }

  // Whether the message asks for the isolation of its group.
  predicate Isolates(s: State, m: Message, now: int, refill: int) {
    && Offends(Judge(s, m, now)) && Stores(s.rows, m, now, refill)
    && Count(NextRows(s, m, now, refill), m.group, now - SPAM_WINDOW) >= SPAM_LIMIT
  }

  class Guard {
    const refill: int
    var warned: map<ID, int>
    var cooldowns: map<(ID, ID), Cooldown>
    var rows: seq<Warning>

    constructor (refill: int)
      ensures Contents() == State(map[], map[], []) && this.refill == refill
    {
      this.refill, warned, cooldowns, rows := refill, map[], map[], [];
    }

    function Contents(): State
      reads this
    {
      State(warned, cooldowns, rows)
    }

    method Check(m: Message, now: int) returns (r: Outcome, isolate: bool)
      modifies this
      ensures Contents() == Apply(old(Contents()), now, Event.Check(m), refill)
      ensures r == Judge(old(Contents()), m, now)
      ensures isolate == Isolates(old(Contents()), m, now, refill)
    {
      if m.tooLong {
        return TooLong, false;
      }
      if (m.group, m.user) in cooldowns && cooldowns[(m.group, m.user)].until > now {
        return RateLimited, false;
      }
      if !m.intervalOk {
        return RateLimited, false;
      }
      if m.repeated || m.nearDuplicate || m.content || !m.userOk || !m.groupOk {
        r, isolate := Offend(m, now);
        return;
      }
      ClearWarning(m.user);
      return Passed, false;
    }

    // What each of the five detectors leads to.
    method Offend(m: Message, now: int) returns (r: Outcome, isolate: bool)
      modifies this
      ensures r == if OnNotice(old(Contents()), m.user, now) then Cooled else Warned
      ensures warned == if r == Warned then old(warned)[m.user := now + refill] else old(warned)
      ensures cooldowns == if r == Cooled
        then old(cooldowns)[(m.group, m.user) := Raised(Lookup(old(cooldowns), (m.group, m.user)), now)] else old(cooldowns)
      ensures rows == if Suspicious(m) then Stored(old(rows), m.group, now, Pause(refill), SPAM_WINDOW) else old(rows)
      ensures isolate <==> Stores(old(rows), m, now, refill) && Count(rows, m.group, now - SPAM_WINDOW) >= SPAM_LIMIT
    {
      isolate := EvaluateGroup(m, now);
      r := Violation(m.group, m.user, now);
    }

    method EvaluateGroup(m: Message, now: int) returns (isolate: bool)
      modifies this`rows
      ensures rows == if Suspicious(m) then Stored(old(rows), m.group, now, Pause(refill), SPAM_WINDOW) else old(rows)
      ensures isolate <==> Stores(old(rows), m, now, refill) && Count(rows, m.group, now - SPAM_WINDOW) >= SPAM_LIMIT
    {
      if m.similar < 3 || m.users < 2 {
        return false;
      }
      var count, created := CreateGroupSpamWarning(m.group, now, Pause(refill), SPAM_WINDOW);
      return created && count >= SPAM_LIMIT;
    }

    method CreateGroupSpamWarning(group: ID, now: int, cooldown: int, window: int) returns (count: nat, created: bool)
      modifies this`rows
      ensures rows == Stored(old(rows), group, now, cooldown, window)
      ensures created == Creates(Recent(old(rows), now - window), group, now, cooldown)
      ensures count == Count(rows, group, now - window)
    {
      rows := Recent(rows, now - window);
      if Count(rows, group, now - cooldown + 1) > 0 {
        return Count(rows, group, now - window), false;
      }
      rows := rows + [Warning(group, now)];
      return Count(rows, group, now - window), true;
    }

    method Violation(group: ID, user: ID, now: int) returns (r: Outcome)
      modifies this`warned, this`cooldowns
      ensures r == if OnNotice(old(Contents()), user, now) then Cooled else Warned
      ensures warned == if r == Warned then old(warned)[user := now + refill] else old(warned)
      ensures cooldowns == if r == Cooled
        then old(cooldowns)[(group, user) := Raised(Lookup(old(cooldowns), (group, user)), now)] else old(cooldowns)
    {
      r := WarnOnce(user, now);
      if r == Cooled {
        RecordMessageViolation(group, user, now);
      }
    }

    method WarnOnce(user: ID, now: int) returns (r: Outcome)
      modifies this`warned
      ensures r == if OnNotice(old(Contents()), user, now) then Cooled else Warned
      ensures warned == if r == Warned then old(warned)[user := now + refill] else old(warned)
    {
      if user in warned && warned[user] > now {
        return Cooled;
      }
      warned := warned[user := now + refill];
      return Warned;
    }

    method ClearWarning(user: ID)
      modifies this`warned
      ensures warned == old(warned) - {user}
    {
      warned := warned - {user};
    }

    method RecordMessageViolation(group: ID, user: ID, now: int)
      modifies this`cooldowns
      ensures cooldowns == old(cooldowns)[(group, user) := Raised(Lookup(old(cooldowns), (group, user)), now)]
    {
      var level := 0;
      if (group, user) in cooldowns && now - cooldowns[(group, user)].last <= DAY {
        level := cooldowns[(group, user)].level;
      }
      level := if level + 1 <= 4 then level + 1 else 4;
      cooldowns := cooldowns[(group, user) := Cooldown(level, now + Length(level), now)];
    }
  }

  // ----- Runs -----

  datatype Step = Step(now: int, event: Event)

  ghost predicate Ordered(steps: seq<Step>) {
    forall i, j :: 0 <= i < j < |steps| ==> steps[i].now <= steps[j].now
  }

  // The state before step `n`.
  function Before(steps: seq<Step>, n: nat, refill: int): State
    requires n <= |steps|
  {
    if n == 0 then State(map[], map[], []) else Apply(Before(steps, n - 1, refill), steps[n - 1].now, steps[n - 1].event, refill)
  }

  predicate Ends(steps: seq<Step>, i: nat, refill: int, o: Outcome)
    requires i < |steps|
  {
    steps[i].event.Check? && Judge(Before(steps, i, refill), steps[i].event.message, steps[i].now) == o
  }

  predicate WarnsAt(steps: seq<Step>, i: nat, refill: int, user: ID)
    requires i < |steps|
  {
    Ends(steps, i, refill, Warned) && steps[i].event.message.user == user
  }

  // A clean message of the user, or a restart.
  predicate ClearsAt(steps: seq<Step>, i: nat, refill: int, user: ID)
    requires i < |steps|
  {
    steps[i].event.Restart? || (Ends(steps, i, refill, Passed) && steps[i].event.message.user == user)
  }

  // The user was warned at step `m`, and nothing has cleared that before step `n`.
  ghost predicate Stands(steps: seq<Step>, m: nat, n: nat, refill: int, user: ID)
    requires n <= |steps|
  {
    m < n && WarnsAt(steps, m, refill, user) && forall i :: m < i < n ==> !ClearsAt(steps, i, refill, user)
  }

  lemma WarnedStep(steps: seq<Step>, n: nat, refill: int, user: ID)
    requires n < |steps|
    ensures var w, v := Before(steps, n, refill).warned, Before(steps, n + 1, refill).warned;
      if WarnsAt(steps, n, refill, user) then user in v && v[user] == steps[n].now + refill
      else if ClearsAt(steps, n, refill, user) then user !in v
      else (user in v <==> user in w) && (user in v ==> v[user] == w[user])
  {
  }

  lemma {:induction false} NoticeHasWarning(steps: seq<Step>, n: nat, refill: int, user: ID) returns (m: nat)
    requires n <= |steps| && user in Before(steps, n, refill).warned
    ensures Stands(steps, m, n, refill, user) && Before(steps, n, refill).warned[user] == steps[m].now + refill
  {
    WarnedStep(steps, n - 1, refill, user);
    if WarnsAt(steps, n - 1, refill, user) {
      m := n - 1;
    } else {
      m := NoticeHasWarning(steps, n - 1, refill, user);
    }
  }

  lemma WarningGivesNotice(steps: seq<Step>, m: nat, n: nat, refill: int, user: ID)
    requires Ordered(steps) && n <= |steps| && Stands(steps, m, n, refill, user)
    ensures user in Before(steps, n, refill).warned && Before(steps, n, refill).warned[user] >= steps[m].now + refill
  {
    WarnedStep(steps, m, refill, user);
    var i, w := m + 1, Before(steps, m + 1, refill).warned;
    while i < n
      invariant m < i <= n && w == Before(steps, i, refill).warned
      invariant user in w && w[user] >= steps[m].now + refill
    {
      WarnedStep(steps, i, refill, user);
      assert !ClearsAt(steps, i, refill, user);
      i, w := i + 1, Before(steps, i + 1, refill).warned;
    }
  }

  /** In every run, an offending message brings a cooldown instead of a warning if and only
      if the user was warned less than one refill period earlier, in whatever group, with
      no clean message and no restart in between. */
  lemma WarningPrecedesCooldown(steps: seq<Step>, n: nat, refill: int)
    requires Ordered(steps) && n < |steps|
    requires Ends(steps, n, refill, Warned) || Ends(steps, n, refill, Cooled)
    ensures Ends(steps, n, refill, Cooled)
      <==> exists m: nat | m < n :: Stands(steps, m, n, refill, steps[n].event.message.user) && steps[n].now < steps[m].now + refill
  {
    var user := steps[n].event.message.user;
    if Ends(steps, n, refill, Cooled) {
      var m := NoticeHasWarning(steps, n, refill, user);
    } else if m: nat :| m < n && Stands(steps, m, n, refill, user) && steps[n].now < steps[m].now + refill {
      WarningGivesNotice(steps, m, n, refill, user);
    }
  }

  // ----- Cooldowns against the history -----

  predicate CoolsAt(steps: seq<Step>, i: nat, refill: int, key: (ID, ID))
    requires i < |steps|
  {
    Ends(steps, i, refill, Cooled) && (steps[i].event.message.group, steps[i].event.message.user) == key
  }

  // The times of all cooldowns recorded for a group and user.
  function Records(steps: seq<Step>, n: nat, refill: int, key: (ID, ID)): seq<int>
    requires n <= |steps|
  {
    if n == 0 then []
    else
      var times := Records(steps, n - 1, refill, key);
      if CoolsAt(steps, n - 1, refill, key) then times + [steps[n - 1].now] else times
  }

  // How many records the current run has, counted back until a gap of over a day.
  function RunLength(times: seq<int>): nat {
    var k := |times|;
    if k <= 1 then k
    else if times[k - 1] - times[k - 2] > DAY then 1
    else
      RunLength(times[..k - 1]) + 1
  }

  function Level(times: seq<int>): nat {
    var n := RunLength(times);
    if n <= 4 then n else 4
  }

  // The cooldown that the history of records calls for.
  function Due(times: seq<int>): Option<Cooldown> {
    if times == [] then None
    else
      var last := times[|times| - 1];
      Some(Cooldown(Level(times), last + Length(Level(times)), last))
  }

  lemma DueStep(times: seq<int>, now: int)
    ensures Due(times + [now]) == Some(Raised(Due(times), now))
  {
    var more := times + [now];
    assert more[..|times|] == times;
    assert times != [] ==> more[|more| - 2] == times[|times| - 1];
  }

  lemma CooldownStep(steps: seq<Step>, n: nat, refill: int, key: (ID, ID))
    requires n < |steps|
    ensures var c, d := Lookup(Before(steps, n, refill).cooldowns, key), Lookup(Before(steps, n + 1, refill).cooldowns, key);
      if CoolsAt(steps, n, refill, key) then d == Some(Raised(c, steps[n].now)) && (c.Some? ==> c.value.until <= steps[n].now)
      else d == c
  {
    if steps[n].event.Check? {
      var s, m, now := Before(steps, n, refill), steps[n].event.message, steps[n].now;
      assert Before(steps, n + 1, refill).cooldowns == NextCooldowns(s, m, now);
    }
  }

  /** The stored cooldown is the one that the full history of records calls for: its level
      is the number of records in the current run, at most four. */
  lemma {:induction false} CooldownIsHistory(steps: seq<Step>, n: nat, refill: int, key: (ID, ID))
    requires n <= |steps|
    ensures Lookup(Before(steps, n, refill).cooldowns, key) == Due(Records(steps, n, refill, key))
  {
    if n > 0 {
      CooldownIsHistory(steps, n - 1, refill, key);
      CooldownStep(steps, n - 1, refill, key);
      if CoolsAt(steps, n - 1, refill, key) {
        DueStep(Records(steps, n - 1, refill, key), steps[n - 1].now);
      }
    }
  }

  ghost predicate Spaced(times: seq<int>) {
    forall i {:trigger SpacedAt(times, i)} :: 0 < i < |times| ==> SpacedAt(times, i)
  }

  predicate SpacedAt(times: seq<int>, i: nat)
    requires 0 < i < |times|
  {
    times[i] >= EndOf(times[..i])
  }

  // When the cooldown of the last record ends.
  function EndOf(times: seq<int>): int
    requires times != []
  {
    times[|times| - 1] + Length(Level(times))
  }

  lemma SpacedAppend(times: seq<int>, now: int)
    requires Spaced(times) && (times != [] ==> now >= EndOf(times))
    ensures Spaced(times + [now])
  {
    var more := times + [now];
    forall i | 0 < i < |more|
      ensures SpacedAt(more, i)
    {
      assert more[..i] == times[..i];
      if i < |times| {
        assert SpacedAt(times, i);
      } else {
        assert times[..i] == times;
      }
    }
  }

  lemma RecordsNext(steps: seq<Step>, n: nat, refill: int, key: (ID, ID))
    requires n < |steps|
    ensures Records(steps, n + 1, refill, key) ==
      var times := Records(steps, n, refill, key);
      if CoolsAt(steps, n, refill, key) then times + [steps[n].now] else times
  {
  }

  // A recorded cooldown comes when the one before has ended.
  lemma RecordIsLate(steps: seq<Step>, n: nat, refill: int, key: (ID, ID))
    requires n < |steps| && CoolsAt(steps, n, refill, key) && Records(steps, n, refill, key) != []
    ensures steps[n].now >= EndOf(Records(steps, n, refill, key))
  {
    CooldownIsHistory(steps, n, refill, key);
    CooldownStep(steps, n, refill, key);
  }

  /** The stored cooldowns climb through four lengths: a minute, five, thirty, two hours. */
  lemma FourLengths(steps: seq<Step>, n: nat, refill: int, key: (ID, ID))
    requires n <= |steps| && key in Before(steps, n, refill).cooldowns
    ensures var c := Before(steps, n, refill).cooldowns[key];
      1 <= c.level <= 4 && c.until == c.last + [60, 300, 1800, 7200][c.level - 1]
  {
    CooldownIsHistory(steps, n, refill, key);
  }

  // Whether the records of the group and user have a cooldown running at `now`.
  predicate Cooling(times: seq<int>, now: int) {
    times != [] && now < times[|times| - 1] + Length(Level(times))
  }

  /** What becomes of a message, over every run: it is too long, or it comes during a cooldown
      or too fast, or it passes if and only if no detector and no limiter objects. */
  lemma OutcomeIff(steps: seq<Step>, n: nat, refill: int)
    requires n < |steps| && steps[n].event.Check?
    ensures var m := steps[n].event.message;
      var held := Cooling(Records(steps, n, refill, (m.group, m.user)), steps[n].now) || !m.intervalOk;
      var clean := m.userOk && m.groupOk && !m.content && !m.repeated && !m.nearDuplicate;
      && (Ends(steps, n, refill, TooLong) <==> m.tooLong)
      && (Ends(steps, n, refill, RateLimited) <==> !m.tooLong && held)
      && (Ends(steps, n, refill, Passed) <==> !m.tooLong && !held && clean)
  {
    var m := steps[n].event.message;
    CooldownIsHistory(steps, n, refill, (m.group, m.user));
  }

  /** No cooldown is recorded while an earlier one of the same group and user runs. */
  lemma CooldownsDoNotOverlap(steps: seq<Step>, n: nat, refill: int, key: (ID, ID))
    requires n <= |steps|
    ensures Spaced(Records(steps, n, refill, key))
  {
    var times, i := [], 0;
    while i < n
      invariant 0 <= i <= n && times == Records(steps, i, refill, key) && Spaced(times)
    {
      RecordsNext(steps, i, refill, key);
      if CoolsAt(steps, i, refill, key) {
        if times != [] {
          RecordIsLate(steps, i, refill, key);
        }
        SpacedAppend(times, steps[i].now);
        times := times + [steps[i].now];
      }
      i := i + 1;
    }
  }

  lemma {:induction false} SpacedEndsIncrease(times: seq<int>, i: nat, j: nat)
    requires Spaced(times) && 0 < i < j <= |times|
    ensures EndOf(times[..i]) < EndOf(times[..j])
    decreases j - i
  {
    var k := j - 1;
    assert EndOf(times[..j]) > times[..j][k] && times[..j][k] == times[k];
    assert SpacedAt(times, k);
    if i < k {
      SpacedEndsIncrease(times, i, k);
    }
  }

  /** In every run, each cooldown of a user in a group ends strictly later than every
      earlier one. */
  lemma EndsIncrease(steps: seq<Step>, n: nat, refill: int, key: (ID, ID), i: nat, j: nat)
    requires n <= |steps| && 0 < i < j <= |Records(steps, n, refill, key)|
    ensures var times := Records(steps, n, refill, key); EndOf(times[..i]) < EndOf(times[..j])
  {
    CooldownsDoNotOverlap(steps, n, refill, key);
    SpacedEndsIncrease(Records(steps, n, refill, key), i, j);
  }

  // ----- Stored warnings against the history -----

  lemma {:induction false} RecentTwice(rows: seq<Warning>, a: int, b: int)
    requires a <= b
    ensures Recent(Recent(rows, a), b) == Recent(rows, b)
  {
    if rows != [] {
      var front, last := rows[..|rows| - 1], rows[|rows| - 1];
      RecentTwice(front, a, b);
      if last.at >= a {
        assert (Recent(front, a) + [last])[..|Recent(front, a)|] == Recent(front, a);
      }
    }
  }

  lemma RecentAppend(rows: seq<Warning>, w: Warning, cutoff: int)
    ensures Recent(rows + [w], cutoff) == if w.at >= cutoff then Recent(rows, cutoff) + [w] else Recent(rows, cutoff)
  {
    assert (rows + [w])[..|rows|] == rows;
  }

  lemma {:induction false} CountRecent(rows: seq<Warning>, group: ID, prune: int, cutoff: int)
    ensures Count(Recent(rows, prune), group, cutoff) == Count(rows, group, if prune <= cutoff then cutoff else prune)
  {
    if rows != [] {
      var front, last := rows[..|rows| - 1], rows[|rows| - 1];
      CountRecent(front, group, prune, cutoff);
      if last.at >= prune {
        assert (Recent(front, prune) + [last])[..|Recent(front, prune)|] == Recent(front, prune);
      }
    }
  }

  predicate OffendsAt(steps: seq<Step>, i: nat, refill: int)
    requires i < |steps|
  {
    steps[i].event.Check? && Offends(Judge(Before(steps, i, refill), steps[i].event.message, steps[i].now))
  }

  predicate StoresAt(steps: seq<Step>, i: nat, refill: int)
    requires i < |steps|
  {
    OffendsAt(steps, i, refill) && Stores(Before(steps, i, refill).rows, steps[i].event.message, steps[i].now, refill)
  }

  // All warnings ever stored.
  function History(steps: seq<Step>, n: nat, refill: int): seq<Warning>
    requires n <= |steps|
  {
    if n == 0 then []
    else
      var rows := History(steps, n - 1, refill);
      if StoresAt(steps, n - 1, refill) then rows + [Warning(steps[n - 1].event.message.group, steps[n - 1].now)] else rows
  }

  lemma RowsStep(steps: seq<Step>, n: nat, refill: int, cutoff: int)
    requires n < |steps| && cutoff >= steps[n].now - SPAM_WINDOW
    ensures Recent(Before(steps, n + 1, refill).rows, cutoff)
      == if StoresAt(steps, n, refill) then Recent(Before(steps, n, refill).rows + [Warning(steps[n].event.message.group, steps[n].now)], cutoff)
         else Recent(Before(steps, n, refill).rows, cutoff)
  {
    var rows, now := Before(steps, n, refill).rows, steps[n].now;
    RecentTwice(rows, now - SPAM_WINDOW, cutoff);
    if steps[n].event.Check? {
      var w := Warning(steps[n].event.message.group, now);
      RecentAppend(rows, w, cutoff);
      RecentAppend(Recent(rows, now - SPAM_WINDOW), w, cutoff);
    }
  }

  /** Pruning, which every group's warnings trigger for all groups, hides nothing: inside
      the window the table holds the full history. */
  lemma {:induction false} RowsAreHistory(steps: seq<Step>, n: nat, refill: int, cutoff: int)
    requires Ordered(steps) && n <= |steps| && (n > 0 ==> cutoff >= steps[n - 1].now - SPAM_WINDOW)
    ensures Recent(Before(steps, n, refill).rows, cutoff) == Recent(History(steps, n, refill), cutoff)
  {
    if n > 0 {
      RowsAreHistory(steps, n - 1, refill, cutoff);
      RowsStep(steps, n - 1, refill, cutoff);
      if StoresAt(steps, n - 1, refill) {
        var w := Warning(steps[n - 1].event.message.group, steps[n - 1].now);
        RecentAppend(Before(steps, n - 1, refill).rows, w, cutoff);
        RecentAppend(History(steps, n - 1, refill), w, cutoff);
      }
    }
  }

  lemma CountIsHistory(steps: seq<Step>, n: nat, refill: int, group: ID, cutoff: int)
    requires Ordered(steps) && n <= |steps| && (n > 0 ==> cutoff >= steps[n - 1].now - SPAM_WINDOW)
    ensures Count(Before(steps, n, refill).rows, group, cutoff) == Count(History(steps, n, refill), group, cutoff)
  {
    RowsAreHistory(steps, n, refill, cutoff);
    CountRecent(Before(steps, n, refill).rows, group, cutoff, cutoff);
    CountRecent(History(steps, n, refill), group, cutoff, cutoff);
  }

  lemma GapIs(refill: int)
    ensures refill <= 0 ==> Gap(refill) == 60
    ensures 1 <= refill <= 30 * 86400 ==> Gap(refill) == refill
    ensures refill > 30 * 86400 ==> Gap(refill) == 30 * 86400 + 1
  {
  }

  // The shortest time between two stored warnings of one group.
  function Gap(refill: int): int {
    if Pause(refill) <= SPAM_WINDOW then Pause(refill) else SPAM_WINDOW + 1
  }

  ghost predicate NoneSince(rows: seq<Warning>, group: ID, cutoff: int) {
    forall i :: 0 <= i < |rows| && rows[i].group == group ==> rows[i].at < cutoff
  }

  lemma {:induction false} CountZero(rows: seq<Warning>, group: ID, cutoff: int)
    ensures Count(rows, group, cutoff) == 0 <==> NoneSince(rows, group, cutoff)
  {
    if rows != [] {
      var front, last := rows[..|rows| - 1], rows[|rows| - 1];
      CountZero(front, group, cutoff);
      assert forall i :: 0 <= i < |front| ==> front[i] == rows[i];
    }
  }

  ghost function Counted(rows: seq<Warning>, group: ID, cutoff: int): set<int> {
    set i | 0 <= i < |rows| && rows[i].group == group && rows[i].at >= cutoff
  }

  lemma {:induction false} CountIsSize(rows: seq<Warning>, group: ID, cutoff: int)
    ensures Count(rows, group, cutoff) == |Counted(rows, group, cutoff)|
  {
    if rows != [] {
      var n := |rows| - 1;
      CountIsSize(rows[..n], group, cutoff);
      var last := if rows[n].group == group && rows[n].at >= cutoff then {n} else {};
      assert Counted(rows, group, cutoff) == Counted(rows[..n], group, cutoff) + last;
    }
  }

  lemma CreatesIff(rows: seq<Warning>, history: seq<Warning>, group: ID, now: int, refill: int)
    requires Recent(rows, now - SPAM_WINDOW) == Recent(history, now - SPAM_WINDOW)
    ensures Creates(Recent(rows, now - SPAM_WINDOW), group, now, Pause(refill)) <==> NoneSince(history, group, now - Gap(refill) + 1)
  {
    CountRecent(history, group, now - SPAM_WINDOW, now - Pause(refill) + 1);
    CountZero(history, group, now - Gap(refill) + 1);
  }

  lemma StoresIff(steps: seq<Step>, n: nat, refill: int)
    requires Ordered(steps) && n < |steps| && OffendsAt(steps, n, refill)
    ensures var m := steps[n].event.message;
      StoresAt(steps, n, refill)
      <==> Suspicious(m) && NoneSince(History(steps, n, refill), m.group, steps[n].now - Gap(refill) + 1)
  {
    var now := steps[n].now;
    RowsAreHistory(steps, n, refill, now - SPAM_WINDOW);
    CreatesIff(Before(steps, n, refill).rows, History(steps, n, refill), steps[n].event.message.group, now, refill);
  }

  /** A message has a warning of its group stored if and only if it is warned or cooled, it is
      at least the third similar one, of at least two other users, and no warning of the
      group was ever stored in the last `Gap` seconds, which is the refill period as long as
      that does not exceed 30 days. */
  lemma StoredIffNoneRecent(steps: seq<Step>, n: nat, refill: int)
    requires Ordered(steps) && n < |steps| && steps[n].event.Check?
    ensures var m := steps[n].event.message;
      StoresAt(steps, n, refill)
      <==> (Ends(steps, n, refill, Warned) || Ends(steps, n, refill, Cooled)) && m.similar >= 3 && m.users >= 2
           && NoneSince(History(steps, n, refill), m.group, steps[n].now - Gap(refill) + 1)
  {
    if OffendsAt(steps, n, refill) {
      StoresIff(steps, n, refill);
    }
  }

  ghost predicate Apart(rows: seq<Warning>, gap: int) {
    forall i, j :: 0 <= i < j < |rows| && rows[i].group == rows[j].group ==> rows[j].at - rows[i].at >= gap
  }

  lemma ApartAppend(rows: seq<Warning>, w: Warning, gap: int)
    requires Apart(rows, gap) && NoneSince(rows, w.group, w.at - gap + 1)
    ensures Apart(rows + [w], gap)
  {
  }

  /** In every run, the warnings of one group are stored at least `Gap` seconds apart. */
  lemma {:induction false} WarningsAreSpaced(steps: seq<Step>, n: nat, refill: int)
    requires Ordered(steps) && n <= |steps|
    ensures Apart(History(steps, n, refill), Gap(refill))
  {
    if n > 0 {
      WarningsAreSpaced(steps, n - 1, refill);
      if StoresAt(steps, n - 1, refill) {
        StoredIffNoneRecent(steps, n - 1, refill);
        var w := Warning(steps[n - 1].event.message.group, steps[n - 1].now);
        ApartAppend(History(steps, n - 1, refill), w, Gap(refill));
      }
    }
  }

  /** Isolation is asked for exactly when this message stores a warning and that is at
      least the third of the group in the full history of the last 30 days. */
  lemma IsolationNeedsThree(steps: seq<Step>, n: nat, refill: int)
    requires Ordered(steps) && n < |steps| && steps[n].event.Check?
    ensures var m := steps[n].event.message;
      Isolates(Before(steps, n, refill), m, steps[n].now, refill)
      <==> StoresAt(steps, n, refill) && |Counted(History(steps, n + 1, refill), m.group, steps[n].now - 30 * 86400)| >= 3
  {
    CountIsSize(History(steps, n + 1, refill), steps[n].event.message.group, steps[n].now - SPAM_WINDOW);
    CountIsHistory(steps, n + 1, refill, steps[n].event.message.group, steps[n].now - SPAM_WINDOW);
  }
}
