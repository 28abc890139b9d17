/** The escalating ban ladder kept in the `ip_bans` table.

    A row is a lossy summary of everything a key has done, and every accepted
    violation of any key prunes the whole table. `Note` is one transaction of
    `NoteViolation`; the second half of the module defines the ladder on the full,
    never pruned, history of a key and proves when the two are the same.

    Times are Unix seconds and durations are whole seconds. */
module BanLadder {
  type Key = string
  type Table = map<Key, Row>

  datatype Row = Row(violations: nat, windowStart: nat, until: nat, updatedAt: nat, banCount: nat)

  datatype Policy = Policy(window: int, threshold: int, steps: seq<nat>, forget: int) {
    predicate Enabled() {
      threshold > 0 && |steps| > 0
    }

    // Periods are at least a second.
    function Window(): (w: nat)
      ensures w >= 1 && (w == window || (w == 1 && window < 1))
    {
      if window > 1 then window else 1
    }

    function Forget(): (f: nat)
      ensures f >= 1 && (f == forget || (f == 1 && forget < 1))
    {
      if forget > 1 then forget else 1
    }
  }

  datatype Verdict = Ignored | Counted | Banned(level: nat, until: nat)

  function Min(a: int, b: int): (m: int)
    ensures m <= a && m <= b && (m == a || m == b)
  {
    if a < b then a else b
  }

  // The rows that survive the DELETE at the start of every transaction.
  function Live(p: Policy, t: Table, now: nat): Table {
    map k | k in t && t[k].updatedAt > now - p.Forget() :: t[k]
  }

  // What an accepted violation makes of the row it finds.
  function Strike(p: Policy, row: Row, now: nat): (Row, Verdict)
    requires p.Enabled()
  {
    var expired := now - row.windowStart > p.Window();
    var violations := if expired then 1 else row.violations + 1;
    var windowStart := if expired then now else row.windowStart;
    if violations < p.threshold then (Row(violations, windowStart, 0, now, row.banCount), Counted)
    else
      var banCount := if now - row.updatedAt <= p.Forget() then row.banCount + 1 else 1;
      var level := Min(banCount, |p.steps|);
      var until := now + p.steps[level - 1];
      (Row(violations, windowStart, until, now, banCount), Banned(level, until))
  }

  // One NoteViolation transaction; an ignored call rolls its DELETE back.
  function Note(p: Policy, t: Table, key: Key, now: nat): (Table, Verdict)
    requires p.Enabled()
  {
    var live := Live(p, t, now);
    var row := if key in live then live[key] else Row(0, now, 0, 0, 0);
    if row.until > now then (t, Ignored)
    else
      var (row', verdict) := Strike(p, row, now);
      (live[key := row'], verdict)
  }

  class BanStore {
    var bans: Table

    constructor ()
      ensures bans == map[]
    {
      bans := map[];
    }

    method NoteViolation(p: Policy, key: Key, now: nat) returns (level: nat, until: nat)
      modifies this
      ensures p.Enabled() <==> p.threshold > 0 && p.steps != []
      ensures !p.Enabled() ==> bans == old(bans) && level == 0 && until == 0
      ensures p.Enabled() ==> bans == Note(p, old(bans), key, now).0
      ensures p.Enabled() ==>
        (level, until) == match Note(p, old(bans), key, now).1
                          case Banned(l, u) => (l, u)
                          case _ => (0, 0)
    {
      level, until := 0, 0;
      if p.threshold <= 0 || |p.steps| == 0 {
        return;
      }
      var tx := Live(p, bans, now);
      var violations, windowStart, rowUntil, updatedAt, banCount := 0, now, 0, 0, 0;
      if key in tx {
        var row := tx[key];
        violations, windowStart, rowUntil := row.violations, row.windowStart, row.until;
        updatedAt, banCount := row.updatedAt, row.banCount;
      }
      if rowUntil > now {
        return;
      }
      if now - windowStart > p.Window() {
        violations, windowStart := 0, now;
      }
      violations := violations + 1;
      if violations >= p.threshold {
        if now - updatedAt <= p.Forget() {
          banCount := banCount + 1;
        } else {
          banCount := 1;
        }
        level := if banCount < |p.steps| then banCount else |p.steps|;
        until := now + p.steps[level - 1];
      }
      bans := tx[key := Row(violations, windowStart, until, now, banCount)];
    }

    method IPBanActive(key: Key, now: nat) returns (active: bool, until: nat)
      ensures active <==> key in bans && bans[key].until > now
      ensures active ==> until == bans[key].until
    {
      if key !in bans || bans[key].until <= now {
        return false, 0;
      }
      return true, bans[key].until;
    }
  }

  // ----- The ladder on the full history of one key -----

  // An accepted violation; `level` is 0 when it created no ban.
  datatype Hit = Hit(time: nat, level: nat, until: nat)

  // True when the history before `now` has been forgotten.
  predicate Forgotten(p: Policy, hits: seq<Hit>, now: nat) {
    hits == [] || now - hits[|hits| - 1].time >= p.Forget()
  }

  // Bans in the escalation run that a violation at `now` would belong to.
  function RunBans(p: Policy, hits: seq<Hit>, now: nat): nat {
    if Forgotten(p, hits, now) then 0
    else
      var last := hits[|hits| - 1];
      (if last.level > 0 then 1 else 0) + RunBans(p, hits[..|hits| - 1], last.time)
  }

  // Start of the counting window that a violation at `now` falls in.
  function WindowStart(p: Policy, hits: seq<Hit>, now: nat): nat {
    if Forgotten(p, hits, now) then now
    else
      var start := WindowStart(p, hits[..|hits| - 1], hits[|hits| - 1].time);
      if now - start > p.Window() then now else start
  }

  // Earlier violations in that window.
  function Strikes(p: Policy, hits: seq<Hit>, now: nat): nat {
    if Forgotten(p, hits, now) then 0
    else
      var before, last := hits[..|hits| - 1], hits[|hits| - 1].time;
      if now - WindowStart(p, before, last) > p.Window() then 0 else Strikes(p, before, last) + 1
  }

  // What the documented ladder does with an accepted violation at `now`.
  function Expected(p: Policy, hits: seq<Hit>, now: nat): Hit
    requires p.Enabled()
  {
    if Strikes(p, hits, now) + 1 < p.threshold then Hit(now, 0, 0)
    else
      var level := Min(RunBans(p, hits, now) + 1, |p.steps|);
      Hit(now, level, now + p.steps[level - 1])
  }

  ghost predicate Running(hits: seq<Hit>, now: nat) {
    exists i :: 0 <= i < |hits| && hits[i].level > 0 && hits[i].until > now
  }

  // The `k`th hit is what the ladder prescribes and came while no ban was running.
  ghost predicate Prescribed(p: Policy, hits: seq<Hit>, k: nat)
    requires p.Enabled() && k < |hits|
  {
    && hits[k] == Expected(p, hits[..k], hits[k].time)
    && !Running(hits[..k], hits[k].time)
    && (forall i :: 0 <= i < k ==> hits[i].time <= hits[k].time)
  }

  ghost predicate Genuine(p: Policy, hits: seq<Hit>)
    requires p.Enabled()
  {
    forall k :: 0 <= k < |hits| ==> Prescribed(p, hits, k)
  }

  // The row that a never pruned table would hold.
  function Summary(p: Policy, hits: seq<Hit>): Row
    requires hits != []
  {
    var before, last := hits[..|hits| - 1], hits[|hits| - 1];
    Row(Strikes(p, before, last.time) + 1, WindowStart(p, before, last.time), last.until, last.time,
        RunBans(p, hits, last.time))
  }

  // The first step that is at least the forget period, if any, is exactly that long.
  ghost predicate PruneSafe(p: Policy) {
    forall i :: 0 <= i < |p.steps| && p.steps[i] > p.Forget() ==>
      exists j :: 0 <= j < i && p.steps[j] >= p.Forget()
  }

  // What a table knows about one key after a run whose latest call was at `clock`.
  ghost predicate Tracks(p: Policy, t: Table, key: Key, hits: seq<Hit>, clock: nat)
    requires p.Enabled()
  {
    && Genuine(p, hits)
    && (forall i :: 0 <= i < |hits| ==> hits[i].time <= clock)
    && (key in t ==> hits != [] && t[key] == Summary(p, hits))
    && (key !in t ==> Forgotten(p, hits, clock))
  }

  lemma GenuinePrefix(p: Policy, hits: seq<Hit>, n: nat)
    requires p.Enabled() && Genuine(p, hits) && n <= |hits|
    ensures Genuine(p, hits[..n])
  {
    forall k | 0 <= k < n
      ensures Prescribed(p, hits[..n], k)
    {
      assert Prescribed(p, hits, k);
      assert hits[..n][..k] == hits[..k];
    }
  }

  lemma GenuineExtend(p: Policy, hits: seq<Hit>, now: nat)
    requires p.Enabled() && Genuine(p, hits) && !Running(hits, now)
    requires forall i :: 0 <= i < |hits| ==> hits[i].time <= now
    ensures Genuine(p, hits + [Expected(p, hits, now)])
  {
    var more := hits + [Expected(p, hits, now)];
    forall k | 0 <= k < |more|
      ensures Prescribed(p, more, k)
    {
      assert more[..k] == hits[..k];
      if k < |hits| {
        assert Prescribed(p, hits, k);
      } else {
        assert hits[..k] == hits;
      }
    }
  }

  ghost predicate ShortSteps(p: Policy, n: nat) {
    forall j :: 0 <= j < n && j < |p.steps| ==> p.steps[j] < p.Forget()
  }

  // The latest hit of a genuine history that has no ban running at `now`.
  lemma LatestHit(p: Policy, hits: seq<Hit>, now: nat)
    requires p.Enabled() && Genuine(p, hits) && !Running(hits, now) && hits != []
    ensures var before, last := hits[..|hits| - 1], hits[|hits| - 1];
      && Genuine(p, before) && !Running(before, last.time)
      && (forall i :: 0 <= i < |before| ==> before[i].time <= last.time)
      && last == Expected(p, before, last.time)
      && (last.level > 0 ==> last.until <= now)
  {
    GenuinePrefix(p, hits, |hits| - 1);
    assert Prescribed(p, hits, |hits| - 1);
  }

  // A run continues only across gaps shorter than the forget period, and a ban
  // inside it must have ended before the next accepted violation.
  lemma {:induction false} RunStepsAreShort(p: Policy, hits: seq<Hit>, now: nat)
    requires p.Enabled() && Genuine(p, hits) && !Running(hits, now)
    ensures ShortSteps(p, RunBans(p, hits, now))
  {
    if !Forgotten(p, hits, now) {
      LatestHit(p, hits, now);
      RunStepsAreShort(p, hits[..|hits| - 1], hits[|hits| - 1].time);
    }
  }

  lemma BanEndsWithinForget(p: Policy, hits: seq<Hit>, now: nat)
    requires p.Enabled() && PruneSafe(p) && Genuine(p, hits) && !Running(hits, now)
    requires forall i :: 0 <= i < |hits| ==> hits[i].time <= now
    ensures Expected(p, hits, now).until <= now + p.Forget()
  {
    RunStepsAreShort(p, hits, now);
  }

  // Only the latest ban of a key can still be running.
  lemma LatestBanDecides(p: Policy, hits: seq<Hit>, now: nat)
    requires p.Enabled() && Genuine(p, hits) && hits != []
    requires hits[|hits| - 1].time <= now
    ensures Running(hits, now) <==> hits[|hits| - 1].until > now
  {
    var last := |hits| - 1;
    assert Prescribed(p, hits, last);
    forall i | 0 <= i < last && hits[i].level > 0
      ensures hits[i].until <= now
    {
      assert hits[..last][i] == hits[i];
    }
  }

  lemma ForgottenMeansIdle(p: Policy, hits: seq<Hit>, now: nat)
    requires p.Enabled() && PruneSafe(p) && Genuine(p, hits) && Forgotten(p, hits, now)
    ensures !Running(hits, now)
  {
    if hits != [] {
      var n := |hits| - 1;
      LatestBanDecides(p, hits, now);
      GenuinePrefix(p, hits, n);
      assert Prescribed(p, hits, n);
      BanEndsWithinForget(p, hits[..n], hits[n].time);
    }
  }

  // ----- Runs over all keys -----

  datatype Call = Call(key: Key, time: nat)
  datatype Entry = Entry(key: Key, time: nat, verdict: Verdict)

  // The table and the log after a run of calls on any keys, from an empty table.
  function Play(p: Policy, calls: seq<Call>): (r: (Table, seq<Entry>))
    requires p.Enabled()
    ensures |r.1| == |calls|
  {
    if calls == [] then (map[], [])
    else
      var c := calls[|calls| - 1];
      var (t, log) := Play(p, calls[..|calls| - 1]);
      var (t', verdict) := Note(p, t, c.key, c.time);
      (t', log + [Entry(c.key, c.time, verdict)])
  }

  ghost predicate Monotone(calls: seq<Call>) {
    forall i, j :: 0 <= i < j < |calls| ==> calls[i].time <= calls[j].time
  }

  function HitOf(e: Entry): Hit {
    match e.verdict
    case Banned(level, until) => Hit(e.time, level, until)
    case _ => Hit(e.time, 0, 0)
  }

  // The accepted violations of one key.
  function Hits(log: seq<Entry>, key: Key): seq<Hit> {
    if log == [] then []
    else
      var e := log[|log| - 1];
      var before := Hits(log[..|log| - 1], key);
      if e.key == key && !e.verdict.Ignored? then before + [HitOf(e)] else before
  }

  // A ban of `key` recorded in the log that lasts beyond `now`.
  ghost predicate BanRunning(log: seq<Entry>, key: Key, now: nat) {
    exists i :: 0 <= i < |log| && log[i].key == key && log[i].verdict.Banned? && log[i].verdict.until > now
  }

  lemma {:induction false} RunningInLog(log: seq<Entry>, key: Key, now: nat)
    requires forall i :: 0 <= i < |log| && log[i].verdict.Banned? ==> log[i].verdict.level > 0
    ensures BanRunning(log, key, now) <==> Running(Hits(log, key), now)
  {
    if log != [] {
      var n := |log| - 1;
      RunningInLog(log[..n], key, now);
      var before := Hits(log[..n], key);
      if BanRunning(log[..n], key, now) {
        var i :| 0 <= i < n && log[..n][i].key == key && log[..n][i].verdict.Banned? && log[..n][i].verdict.until > now;
        assert log[i] == log[..n][i];
        var j :| 0 <= j < |before| && before[j].level > 0 && before[j].until > now;
        assert Hits(log, key)[j] == before[j];
      }
      if log[n].key == key && log[n].verdict.Banned? && log[n].verdict.until > now {
        assert Hits(log, key)[|before|].level > 0;
      }
    }
  }

  lemma TableKnowsRunning(p: Policy, t: Table, key: Key, hits: seq<Hit>, now: nat)
    requires p.Enabled() && PruneSafe(p) && Tracks(p, t, key, hits, now)
    ensures key in t && t[key].until > now <==> Running(hits, now)
  {
    if key in t {
      LatestBanDecides(p, hits, now);
    } else {
      ForgottenMeansIdle(p, hits, now);
    }
  }

  lemma BanOutlivesPruning(p: Policy, t: Table, key: Key, hits: seq<Hit>, now: nat)
    requires p.Enabled() && PruneSafe(p) && Tracks(p, t, key, hits, now) && Running(hits, now)
    ensures key in Live(p, t, now)
  {
    if Forgotten(p, hits, now) {
      ForgottenMeansIdle(p, hits, now);
    }
  }

  // The row that history prescribes after an accepted violation at `now`.
  function NextRow(p: Policy, hits: seq<Hit>, now: nat): Row
    requires p.Enabled()
  {
    var hit := Expected(p, hits, now);
    Row(Strikes(p, hits, now) + 1, WindowStart(p, hits, now), hit.until, now,
        (if hit.level > 0 then 1 else 0) + RunBans(p, hits, now))
  }

  lemma StrikeFresh(p: Policy, hits: seq<Hit>, now: nat)
    requires p.Enabled() && Forgotten(p, hits, now)
    ensures var (row', v) := Strike(p, Row(0, now, 0, 0, 0), now);
      row' == NextRow(p, hits, now) && HitOf(Entry("", now, v)) == Expected(p, hits, now) && !v.Ignored?
  {
  }

  lemma StrikeKnown(p: Policy, hits: seq<Hit>, now: nat)
    requires p.Enabled() && !Forgotten(p, hits, now)
    ensures var (row', v) := Strike(p, Summary(p, hits), now);
      row' == NextRow(p, hits, now) && HitOf(Entry("", now, v)) == Expected(p, hits, now) && !v.Ignored?
  {
    var before, last := hits[..|hits| - 1], hits[|hits| - 1];
    assert RunBans(p, hits, now) == RunBans(p, hits, last.time);
  }

  // A call on a key without a ban running writes the row its history prescribes.
  lemma NoteWrites(p: Policy, t: Table, key: Key, hits: seq<Hit>, now: nat)
    requires p.Enabled() && Tracks(p, t, key, hits, now) && !Running(hits, now)
    ensures var (t', v) := Note(p, t, key, now);
      && !v.Ignored? && HitOf(Entry(key, now, v)) == Expected(p, hits, now)
      && key in t' && t'[key] == NextRow(p, hits, now)
  {
    if key in Live(p, t, now) {
      LatestBanDecides(p, hits, now);
      StrikeKnown(p, hits, now);
    } else {
      StrikeFresh(p, hits, now);
    }
  }

  lemma SummaryExtend(p: Policy, hits: seq<Hit>, hit: Hit)
    requires p.Enabled() && hit == Expected(p, hits, hit.time)
    ensures Summary(p, hits + [hit]) == NextRow(p, hits, hit.time)
  {
    assert (hits + [hit])[..|hits|] == hits;
  }

  // One call keeps the table in step with the history of the called key ...
  lemma NoteTracksCaller(p: Policy, t: Table, key: Key, hits: seq<Hit>, now: nat)
    requires p.Enabled() && PruneSafe(p) && Tracks(p, t, key, hits, now)
    ensures var (t', v) := Note(p, t, key, now);
      if Running(hits, now) then v.Ignored? && t' == t
      else
        && !v.Ignored?
        && HitOf(Entry(key, now, v)) == Expected(p, hits, now)
        && Tracks(p, t', key, hits + [Expected(p, hits, now)], now)
  {
    if Running(hits, now) {
      TableKnowsRunning(p, t, key, hits, now);
      BanOutlivesPruning(p, t, key, hits, now);
    } else {
      NoteWrites(p, t, key, hits, now);
      GenuineExtend(p, hits, now);
      SummaryExtend(p, hits, Expected(p, hits, now));
    }
  }

  // ... and with the history of every other key.
  lemma NoteTracksOthers(p: Policy, t: Table, key: Key, other: Key, hits: seq<Hit>, clock: nat, now: nat)
    requires p.Enabled() && Tracks(p, t, other, hits, clock) && clock <= now && other != key
    ensures Tracks(p, Note(p, t, key, now).0, other, hits, now)
  {
  }

  lemma TracksLater(p: Policy, t: Table, key: Key, hits: seq<Hit>, clock: nat, now: nat)
    requires p.Enabled() && Tracks(p, t, key, hits, clock) && clock <= now
    ensures Tracks(p, t, key, hits, now)
  {
  }

  lemma HitsExtend(log: seq<Entry>, e: Entry, key: Key)
    ensures Hits(log + [e], key) ==
      if e.key == key && !e.verdict.Ignored? then Hits(log, key) + [HitOf(e)] else Hits(log, key)
  {
    assert (log + [e])[..|log|] == log;
  }

  lemma NoteTracks(p: Policy, t: Table, log: seq<Entry>, c: Call, key: Key)
    requires p.Enabled() && PruneSafe(p) && Tracks(p, t, key, Hits(log, key), c.time)
    ensures var (t', v) := Note(p, t, c.key, c.time);
      Tracks(p, t', key, Hits(log + [Entry(c.key, c.time, v)], key), c.time)
  {
    HitsExtend(log, Entry(c.key, c.time, Note(p, t, c.key, c.time).1), key);
    if c.key == key {
      NoteTracksCaller(p, t, key, Hits(log, key), c.time);
    } else {
      NoteTracksOthers(p, t, c.key, key, Hits(log, key), c.time, c.time);
    }
  }

  lemma BannedLevelPositive(p: Policy, t: Table, key: Key, now: nat)
    requires p.Enabled()
    ensures Note(p, t, key, now).1.Banned? ==> Note(p, t, key, now).1.level > 0
  {
  }

  // The table of any run tracks the history of every key.
  lemma {:induction false} PlayTracks(p: Policy, calls: seq<Call>, key: Key, now: nat)
    requires p.Enabled() && PruneSafe(p) && Monotone(calls)
    requires forall i :: 0 <= i < |calls| ==> calls[i].time <= now
    ensures var (t, log) := Play(p, calls);
      && Tracks(p, t, key, Hits(log, key), now)
      && (forall i :: 0 <= i < |log| && log[i].verdict.Banned? ==> log[i].verdict.level > 0)
  {
    if calls != [] {
      var n := |calls| - 1;
      PlayTracks(p, calls[..n], key, calls[n].time);
      var (t, log) := Play(p, calls[..n]);
      NoteTracks(p, t, log, calls[n], key);
      var (t', log') := Play(p, calls);
      TracksLater(p, t', key, Hits(log', key), calls[n].time, now);
    }
  }

  // What a verdict that agrees with the history says, clause by clause.
  ghost predicate FollowsLadder(p: Policy, hits: seq<Hit>, now: nat, v: Verdict)
    requires p.Enabled()
  {
    && !v.Ignored?
    && (v.Banned? <==> Strikes(p, hits, now) + 1 >= p.threshold)
    && (v.Banned? ==>
          && v.level == Min(RunBans(p, hits, now) + 1, |p.steps|)
          && v.until == now + p.steps[v.level - 1])
  }

  lemma VerdictFollowsLadder(p: Policy, hits: seq<Hit>, now: nat, v: Verdict)
    requires p.Enabled() && !v.Ignored? && HitOf(Entry("", now, v)) == Expected(p, hits, now)
    requires v.Banned? ==> v.level > 0
    ensures FollowsLadder(p, hits, now, v)
  {
  }

  /** The pruned table means the same as the full history: a call is ignored exactly
      while an earlier ban of its key is running, and an accepted one is counted,
      escalated and timed as the ladder on the full history prescribes. */
  lemma LadderRefinesHistory(p: Policy, calls: seq<Call>, key: Key, now: nat)
    requires p.Enabled() && PruneSafe(p) && Monotone(calls)
    requires forall i :: 0 <= i < |calls| ==> calls[i].time <= now
    ensures var (t, log) := Play(p, calls);
      var verdict := Note(p, t, key, now).1;
      && (key in t && t[key].until > now <==> BanRunning(log, key, now))
      && (if BanRunning(log, key, now) then verdict.Ignored? else FollowsLadder(p, Hits(log, key), now, verdict))
  {
    PlayTracks(p, calls, key, now);
    var (t, log) := Play(p, calls);
    var hits := Hits(log, key);
    RunningInLog(log, key, now);
    TableKnowsRunning(p, t, key, hits, now);
    NoteTracksCaller(p, t, key, hits, now);
    if !Running(hits, now) {
      BannedLevelPositive(p, t, key, now);
      VerdictFollowsLadder(p, hits, now, Note(p, t, key, now).1);
    }
  }

  // ----- What the ladder guarantees over whole histories -----

  // After a ban the next hit waits for its end.
  lemma WaitsForEnd(p: Policy, hits: seq<Hit>, i: nat, k: nat)
    requires p.Enabled() && Genuine(p, hits) && i < k < |hits| && hits[i].level > 0
    ensures hits[i].level <= |p.steps|
    ensures hits[k].time >= hits[i].until == hits[i].time + p.steps[hits[i].level - 1]
  {
    assert Prescribed(p, hits, i) && Prescribed(p, hits, k);
    assert hits[..k][i] == hits[i];
  }

  // Total length of the first `n` steps.
  function StepSum(p: Policy, n: nat): nat
    requires n <= |p.steps|
  {
    if n == 0 then 0 else StepSum(p, n - 1) + p.steps[n - 1]
  }

  // The strongest ban outlasts the memory of the ladder.
  predicate TopForgets(p: Policy) {
    p.Enabled() && p.steps[|p.steps| - 1] >= p.Forget()
  }

  predicate IsTop(p: Policy, h: Hit) {
    h.level == |p.steps|
  }

  // After a top-level ban the run starts over, so climbing to `n` bans takes their steps.
  lemma {:induction false} ClimbAfterTop(p: Policy, hits: seq<Hit>, i: nat, k: nat)
    requires TopForgets(p) && Genuine(p, hits) && i < k < |hits| && IsTop(p, hits[i])
    ensures var runs := RunBans(p, hits[..k], hits[k].time);
      hits[k].time >= hits[i].until + StepSum(p, Min(runs, |p.steps|))
    decreases k
  {
    WaitsForEnd(p, hits, i, k);
    var before := hits[..k];
    assert before[|before| - 1] == hits[k - 1] && before[..|before| - 1] == hits[..k - 1];
    if !Forgotten(p, before, hits[k].time) {
      assert Prescribed(p, hits, k) && Prescribed(p, hits, k - 1) && Prescribed(p, hits, i);
      ClimbAfterTop(p, hits, i, k - 1);
      if hits[k - 1].level > 0 {
        WaitsForEnd(p, hits, k - 1, k);
      }
    }
  }

  // Two top-level bans are at least the sum of all steps apart.
  lemma TopsApart(p: Policy, hits: seq<Hit>, i: nat, k: nat)
    requires TopForgets(p) && Genuine(p, hits) && i < k < |hits|
    requires IsTop(p, hits[i]) && IsTop(p, hits[k])
    ensures hits[k].time >= hits[i].time + StepSum(p, |p.steps|)
  {
    ClimbAfterTop(p, hits, i, k);
    assert Prescribed(p, hits, i) && Prescribed(p, hits, k);
    var runs := RunBans(p, hits[..k], hits[k].time);
    assert runs + 1 >= |p.steps|;
    StepSumMonotone(p, |p.steps| - 1, Min(runs, |p.steps|));
  }

  lemma StepSumMonotone(p: Policy, a: nat, b: nat)
    requires a <= b <= |p.steps|
    ensures StepSum(p, a) <= StepSum(p, b)
  {
  }

  // ----- The same for every run of the table -----

  // The accepted violations of a key in a run.
  function HitsOf(p: Policy, calls: seq<Call>, key: Key): seq<Hit>
    requires p.Enabled()
  {
    Hits(Play(p, calls).1, key)
  }

  lemma RunIsGenuine(p: Policy, calls: seq<Call>, key: Key)
    requires p.Enabled() && PruneSafe(p) && Monotone(calls)
    ensures Genuine(p, HitsOf(p, calls, key))
  {
    PlayTracks(p, calls, key, if calls == [] then 0 else calls[|calls| - 1].time);
  }

  lemma {:induction false} LogOfPrefix(p: Policy, calls: seq<Call>, j: nat)
    requires p.Enabled() && j < |calls|
    ensures var log := Play(p, calls).1;
      && log[..j] == Play(p, calls[..j]).1
      && log[j] == Entry(calls[j].key, calls[j].time, Note(p, Play(p, calls[..j]).0, calls[j].key, calls[j].time).1)
  {
    var n := |calls| - 1;
    if j < n {
      LogOfPrefix(p, calls[..n], j);
      assert calls[..n][..j] == calls[..j];
    }
    assert Play(p, calls).1[..n] == Play(p, calls[..n]).1;
    assert Play(p, calls).1[..j] == Play(p, calls).1[..n][..j];
  }

  /** In every run a ban runs its whole course and no longer: a call is ignored if and only
      if an earlier ban of its key has not ended, and a ban ends after its step. */
  lemma BanRunsItsCourse(p: Policy, calls: seq<Call>, j: nat)
    requires p.Enabled() && PruneSafe(p) && Monotone(calls) && j < |calls|
    ensures var log := Play(p, calls).1;
      && (log[j].verdict.Ignored? <==> BanRunning(log[..j], calls[j].key, calls[j].time))
      && (log[j].verdict.Banned? ==>
            && 1 <= log[j].verdict.level <= |p.steps|
            && log[j].verdict.until == calls[j].time + p.steps[log[j].verdict.level - 1])
  {
    LogOfPrefix(p, calls, j);
    LadderRefinesHistory(p, calls[..j], calls[j].key, calls[j].time);
    BannedLevelPositive(p, Play(p, calls[..j]).0, calls[j].key, calls[j].time);
  }

  // The last `n` hits lie in the window that begins at `start`.
  ghost predicate Near(p: Policy, hits: seq<Hit>, n: nat, start: int) {
    n <= |hits| && forall i :: |hits| - n <= i < |hits| ==> start <= hits[i].time <= start + p.Window()
  }

  // What a row says about the hits of its key, under any policy.
  ghost predicate RowFits(p: Policy, t: Table, key: Key, hits: seq<Hit>, clock: nat) {
    && (forall i :: 0 <= i < |hits| ==> hits[i].time <= clock)
    && (key !in t ==> Forgotten(p, hits, clock))
    && (key in t ==>
          && hits != [] && t[key].updatedAt == hits[|hits| - 1].time && t[key].until == hits[|hits| - 1].until
          && t[key].windowStart <= t[key].updatedAt && Near(p, hits, t[key].violations, t[key].windowStart))
  }

  ghost predicate JustifiedFrom(p: Policy, hits: seq<Hit>, k: nat, start: int)
    requires k < |hits|
  {
    p.threshold <= k + 1 && forall i :: k + 1 - p.threshold <= i <= k ==> start <= hits[i].time <= start + p.Window()
  }

  ghost predicate Justified(p: Policy, hits: seq<Hit>, k: nat)
    requires k < |hits|
  {
    hits[k].level > 0 ==> exists start :: JustifiedFrom(p, hits, k, start)
  }

  // After a top-level ban nothing is remembered; later bans have climbed from there.
  ghost predicate TopRow(p: Policy, t: Table, key: Key, hits: seq<Hit>, i: nat)
    requires p.Enabled() && i < |hits|
  {
    && (key in t && i == |hits| - 1 ==> t[key].until >= hits[i].time + p.Forget())
    && (key in t && i < |hits| - 1 ==>
          && RowEnd(t[key]) >= hits[i].time + p.Forget() + StepSum(p, Min(t[key].banCount, |p.steps|))
          && ((forall m :: i < m < |hits| ==> hits[m].level == 0) ==> t[key].banCount == 0))
  }

  // When the key of this row is next heard.
  function RowEnd(row: Row): nat {
    if row.until > row.updatedAt then row.until else row.updatedAt
  }

  // What holds of a hit after a top-level ban.
  ghost predicate AfterTop(p: Policy, hits: seq<Hit>, i: nat, k: nat)
    requires p.Enabled() && i < k < |hits|
  {
    && ((forall m :: i < m < k ==> hits[m].level == 0) ==> hits[k].level <= 1)
    && (IsTop(p, hits[k]) ==> hits[k].time >= hits[i].time + p.Forget() + StepSum(p, |p.steps| - 1))
  }

  // The row that an accepted violation finds.
  function FoundRow(p: Policy, t: Table, key: Key, now: nat): Row {
    if key in Live(p, t, now) then t[key] else Row(0, now, 0, 0, 0)
  }

  lemma NoteShape(p: Policy, t: Table, key: Key, now: nat)
    requires p.Enabled()
    ensures var (t', v) := Note(p, t, key, now);
      if FoundRow(p, t, key, now).until > now then v.Ignored? && t' == t
      else
        var (row, w) := Strike(p, FoundRow(p, t, key, now), now);
        v == w && !v.Ignored? && t' == Live(p, t, now)[key := row]
  {
  }

  lemma AcceptFits(p: Policy, t: Table, key: Key, now: nat, hits: seq<Hit>)
    requires p.Enabled() && RowFits(p, t, key, hits, now) && FoundRow(p, t, key, now).until <= now
    ensures var (row, v) := Strike(p, FoundRow(p, t, key, now), now);
      var more := hits + [HitOf(Entry(key, now, v))];
      RowFits(p, map[key := row], key, more, now) && Justified(p, more, |hits|)
  {
    var (row, v) := Strike(p, FoundRow(p, t, key, now), now);
    var more := hits + [HitOf(Entry(key, now, v))];
    assert forall i :: 0 <= i < |hits| ==> more[i] == hits[i];
    assert Near(p, more, row.violations, row.windowStart);
    if v.Banned? {
      assert JustifiedFrom(p, more, |hits|, row.windowStart);
    }
  }

  lemma AcceptAfterTop(p: Policy, t: Table, key: Key, now: nat, hits: seq<Hit>, i: nat)
    requires TopForgets(p) && RowFits(p, t, key, hits, now) && FoundRow(p, t, key, now).until <= now
    requires i < |hits| && TopRow(p, t, key, hits, i)
    requires i < |hits| - 1 ==> now >= hits[i].time + p.Forget()
    ensures var (row, v) := Strike(p, FoundRow(p, t, key, now), now);
      var more := hits + [HitOf(Entry(key, now, v))];
      && now >= hits[i].time + p.Forget()
      && TopRow(p, map[key := row], key, more, i) && AfterTop(p, more, i, |hits|)
  {
    var found := FoundRow(p, t, key, now);
    var (row, v) := Strike(p, found, now);
    var more := hits + [HitOf(Entry(key, now, v))];
    assert forall m :: 0 <= m < |hits| ==> more[m] == hits[m];
    var base := hits[i].time + p.Forget();
    assert now >= base + StepSum(p, Min(found.banCount, |p.steps|));
    StepSumMonotone(p, Min(found.banCount, |p.steps|), Min(found.banCount + 1, |p.steps|));
    if forall m :: i < m < |more| ==> more[m].level == 0 {
      assert more[|hits|].level == 0;
      forall m | i < m < |hits|
        ensures hits[m].level == 0
      {
        assert more[m].level == 0;
      }
      assert found.banCount == 0;
    }
  }

  // Every ban among the hits is justified.
  ghost predicate AllJustified(p: Policy, hits: seq<Hit>) {
    forall k :: 0 <= k < |hits| ==> Justified(p, hits, k)
  }

  ghost predicate AllAfterTop(p: Policy, t: Table, key: Key, hits: seq<Hit>)
    requires p.Enabled()
  {
    forall i :: 0 <= i < |hits| && IsTop(p, hits[i]) ==> TopHit(p, t, key, hits, i)
  }

  ghost predicate TopHit(p: Policy, t: Table, key: Key, hits: seq<Hit>, i: nat)
    requires p.Enabled() && i < |hits|
  {
    && TopRow(p, t, key, hits, i)
    && forall k :: i < k < |hits| ==> hits[k].time >= hits[i].time + p.Forget() && AfterTop(p, hits, i, k)
  }

  lemma JustifiedExtend(p: Policy, hits: seq<Hit>, h: Hit)
    requires AllJustified(p, hits) && Justified(p, hits + [h], |hits|)
    ensures AllJustified(p, hits + [h])
  {
    var more := hits + [h];
    forall k | 0 <= k < |hits|
      ensures Justified(p, more, k)
    {
      assert Justified(p, hits, k);
      if hits[k].level > 0 {
        var start :| JustifiedFrom(p, hits, k, start);
        assert JustifiedFrom(p, more, k, start);
      }
    }
  }

  lemma TopHitExtend(p: Policy, t: Table, t': Table, key: Key, hits: seq<Hit>, h: Hit, i: nat)
    requires p.Enabled() && i < |hits| && TopHit(p, t, key, hits, i)
    requires h.time >= hits[i].time + p.Forget() && TopRow(p, t', key, hits + [h], i) && AfterTop(p, hits + [h], i, |hits|)
    ensures TopHit(p, t', key, hits + [h], i)
  {
    var more := hits + [h];
    assert forall m :: 0 <= m < |hits| ==> more[m] == hits[m];
    forall k | i < k < |hits|
      ensures AfterTop(p, more, i, k)
    {
      assert AfterTop(p, hits, i, k);
    }
  }

  lemma TopRowNew(p: Policy, t: Table, key: Key, now: nat, hits: seq<Hit>)
    requires TopForgets(p) && FoundRow(p, t, key, now).until <= now
    ensures var (row, v) := Strike(p, FoundRow(p, t, key, now), now);
      var h := HitOf(Entry(key, now, v));
      IsTop(p, h) ==> TopHit(p, map[key := row], key, hits + [h], |hits|)
  {
  }

  lemma AcceptTops(p: Policy, t: Table, key: Key, now: nat, hits: seq<Hit>)
    requires TopForgets(p) && RowFits(p, t, key, hits, now) && FoundRow(p, t, key, now).until <= now && AllAfterTop(p, t, key, hits)
    ensures var (row, v) := Strike(p, FoundRow(p, t, key, now), now);
      AllAfterTop(p, map[key := row], key, hits + [HitOf(Entry(key, now, v))])
  {
    var (row, v) := Strike(p, FoundRow(p, t, key, now), now);
    var h := HitOf(Entry(key, now, v));
    var more := hits + [h];
    forall i | 0 <= i < |more| && IsTop(p, more[i])
      ensures TopHit(p, map[key := row], key, more, i)
    {
      if i < |hits| {
        assert more[i] == hits[i] && TopHit(p, t, key, hits, i);
        AcceptAfterTop(p, t, key, now, hits, i);
        TopHitExtend(p, t, map[key := row], key, hits, h, i);
      } else {
        TopRowNew(p, t, key, now, hits);
      }
    }
  }

  // Only the row of the key itself matters, and pruning it loses nothing.
  lemma FitsElsewhere(p: Policy, t: Table, t': Table, key: Key, hits: seq<Hit>, clock: nat, now: nat)
    requires p.Enabled() && RowFits(p, t, key, hits, clock) && clock <= now
    requires key in t' ==> key in t && t'[key] == t[key]
    requires key in t && key !in t' ==> t[key].updatedAt <= now - p.Forget()
    ensures RowFits(p, t', key, hits, now)
    ensures AllAfterTop(p, t, key, hits) ==> AllAfterTop(p, t', key, hits)
  {
    if AllAfterTop(p, t, key, hits) {
      forall i | 0 <= i < |hits| && IsTop(p, hits[i])
        ensures TopHit(p, t', key, hits, i)
      {
        assert TopHit(p, t, key, hits, i);
      }
    }
  }

  lemma SameRow(p: Policy, t: Table, t': Table, key: Key, hits: seq<Hit>, clock: nat)
    requires p.Enabled() && key in t && key in t' && t[key] == t'[key]
    ensures RowFits(p, t, key, hits, clock) == RowFits(p, t', key, hits, clock)
    ensures AllAfterTop(p, t, key, hits) ==> AllAfterTop(p, t', key, hits)
  {
    if AllAfterTop(p, t, key, hits) {
      forall i | 0 <= i < |hits| && IsTop(p, hits[i])
        ensures TopHit(p, t', key, hits, i)
      {
        assert TopHit(p, t, key, hits, i);
      }
    }
  }

  lemma {:induction false} RunFits(p: Policy, calls: seq<Call>, key: Key, clock: nat)
    requires p.Enabled() && CalledBy(calls, clock)
    ensures var (t, hits) := (Play(p, calls).0, HitsOf(p, calls, key));
      RowFits(p, t, key, hits, clock) && AllJustified(p, hits) && (TopForgets(p) ==> AllAfterTop(p, t, key, hits))
  {
    if calls != [] {
      var n := |calls| - 1;
      var c := calls[n];
      RunFits(p, calls[..n], key, c.time);
      var (t, log) := Play(p, calls[..n]);
      FitsStep(p, t, log, c, key);
      var t' := Play(p, calls).0;
      FitsElsewhere(p, t', t', key, HitsOf(p, calls, key), c.time, clock);
    }
  }

  lemma FitsStep(p: Policy, t: Table, log: seq<Entry>, c: Call, key: Key)
    requires p.Enabled() && RowFits(p, t, key, Hits(log, key), c.time) && AllJustified(p, Hits(log, key))
    requires TopForgets(p) ==> AllAfterTop(p, t, key, Hits(log, key))
    ensures var (t', v) := Note(p, t, c.key, c.time);
      var hits := Hits(log + [Entry(c.key, c.time, v)], key);
      RowFits(p, t', key, hits, c.time) && AllJustified(p, hits) && (TopForgets(p) ==> AllAfterTop(p, t', key, hits))
  {
    var (t', v) := Note(p, t, c.key, c.time);
    var hits := Hits(log, key);
    HitsExtend(log, Entry(c.key, c.time, v), key);
    NoteShape(p, t, c.key, c.time);
    if c.key != key || v.Ignored? {
      FitsElsewhere(p, t, t', key, hits, c.time, c.time);
    } else {
      var row := Strike(p, FoundRow(p, t, key, c.time), c.time).0;
      AcceptFits(p, t, key, c.time, hits);
      JustifiedExtend(p, hits, HitOf(Entry(key, c.time, v)));
      var more := hits + [HitOf(Entry(key, c.time, v))];
      if TopForgets(p) {
        AcceptTops(p, t, key, c.time, hits);
      }
      SameRow(p, map[key := row], t', key, more, c.time);
    }
  }

  lemma RunFitsAtEnd(p: Policy, calls: seq<Call>, key: Key)
    requires p.Enabled() && Monotone(calls)
    ensures var hits := HitsOf(p, calls, key);
      AllJustified(p, hits) && (TopForgets(p) ==> AllAfterTop(p, Play(p, calls).0, key, hits))
  {
    RunFits(p, calls, key, if calls == [] then 0 else calls[|calls| - 1].time);
  }

  /** Under every policy, every ban of a run is justified: `threshold` consecutive accepted
      violations of its key, the banned one included, lie within the configured window, which is at least a second. */
  lemma BanIsJustified(p: Policy, calls: seq<Call>, key: Key, k: nat) returns (first: nat, start: int)
    requires p.Enabled() && Monotone(calls)
    requires k < |HitsOf(p, calls, key)| && HitsOf(p, calls, key)[k].level > 0
    ensures first + p.threshold == k + 1
    ensures forall i :: first <= i <= k ==> start <= HitsOf(p, calls, key)[i].time <= start + (if p.window >= 1 then p.window else 1)
  {
    RunFitsAtEnd(p, calls, key);
    var hits := HitsOf(p, calls, key);
    assert Justified(p, hits, k);
    start :| JustifiedFrom(p, hits, k, start);
    first := k + 1 - p.threshold;
  }

  /** When the last step is at least the forget period, the ban of a key that follows a
      top-level ban in a run is back at level 1. */
  lemma LevelOneAfterTop(p: Policy, calls: seq<Call>, key: Key, i: nat, k: nat)
    requires TopForgets(p) && Monotone(calls)
    requires i < k < |HitsOf(p, calls, key)| && IsTop(p, HitsOf(p, calls, key)[i])
    requires forall m :: i < m < k ==> HitsOf(p, calls, key)[m].level == 0
    ensures HitsOf(p, calls, key)[k].level <= 1
  {
    RunFitsAtEnd(p, calls, key);
    assert TopHit(p, Play(p, calls).0, key, HitsOf(p, calls, key), i);
  }

  /** Two top-level bans of one key in a run are at least the forget period and the sum of
      all other steps apart; where no table forgets a running ban, the sum of all steps. */
  lemma TopBansAreRare(p: Policy, calls: seq<Call>, key: Key, i: nat, k: nat)
    requires TopForgets(p) && Monotone(calls)
    requires i < k < |HitsOf(p, calls, key)| && IsTop(p, HitsOf(p, calls, key)[i]) && IsTop(p, HitsOf(p, calls, key)[k])
    ensures HitsOf(p, calls, key)[k].time >= HitsOf(p, calls, key)[i].time + p.Forget() + StepSum(p, |p.steps| - 1)
    ensures PruneSafe(p) ==> HitsOf(p, calls, key)[k].time >= HitsOf(p, calls, key)[i].time + StepSum(p, |p.steps|)
  {
    RunFitsAtEnd(p, calls, key);
    assert TopHit(p, Play(p, calls).0, key, HitsOf(p, calls, key), i);
    if PruneSafe(p) {
      RunIsGenuine(p, calls, key);
      TopsApart(p, HitsOf(p, calls, key), i, k);
    }
  }

  // ----- Exactly when pruning is unobservable -----

  // On every run a call is ignored exactly while an earlier ban of its key is running.
  ghost predicate Faithful(p: Policy)
    requires p.Enabled()
  {
    forall calls: seq<Call>, key: Key, now: nat ::
      Monotone(calls) && (forall i :: 0 <= i < |calls| ==> calls[i].time <= now) ==>
        (Note(p, Play(p, calls).0, key, now).1.Ignored? <==> BanRunning(Play(p, calls).1, key, now))
  }

  lemma PlayOne(p: Policy, calls: seq<Call>, c: Call)
    requires p.Enabled()
    ensures Play(p, calls + [c]).0 == Note(p, Play(p, calls).0, c.key, c.time).0
    ensures Play(p, calls + [c]).1 == Play(p, calls).1 + [Entry(c.key, c.time, Note(p, Play(p, calls).0, c.key, c.time).1)]
  {
    assert (calls + [c])[..|calls|] == calls;
  }

  ghost predicate CalledBy(calls: seq<Call>, now: nat) {
    Monotone(calls) && forall i :: 0 <= i < |calls| ==> calls[i].time <= now
  }

  // The run ends with a ban of `key` created at `now`, its `count`th in a row.
  ghost predicate EndsBanned(p: Policy, calls: seq<Call>, key: Key, now: nat, count: nat)
    requires p.Enabled() && count > 0
  {
    var (t, log) := Play(p, calls);
    var until := now + p.steps[Min(count, |p.steps|) - 1];
    && CalledBy(calls, now) && key in t
    && t[key].windowStart <= t[key].updatedAt == now && t[key].banCount == count && t[key].until == until
    && log != [] && log[|log| - 1] == Entry(key, now, Banned(Min(count, |p.steps|), until))
  }

  function Missing(p: Policy, row: Row, now: nat): int {
    if now - row.windowStart > p.Window() then p.threshold else p.threshold - 1 - row.violations
  }

  // One call on a live row whose ban has ended: one violation less is missing, or a ban.
  lemma OnePress(p: Policy, t: Table, key: Key, now: nat)
    requires p.Enabled() && key in t
    requires t[key].until <= now && now - p.Forget() < t[key].updatedAt <= now && t[key].windowStart <= now
    ensures var (t', v) := Note(p, t, key, now);
      var count := t[key].banCount;
      && key in t' && t'[key].windowStart <= now == t'[key].updatedAt && !v.Ignored?
      && (v.Counted? ==> t'[key].until == 0 && t'[key].banCount == count && 0 <= Missing(p, t'[key], now) < Missing(p, t[key], now))
      && (v.Banned? ==>
            && t'[key].banCount == count + 1 && t'[key].until == now + p.steps[Min(count + 1, |p.steps|) - 1]
            && v == Banned(Min(count + 1, |p.steps|), t'[key].until))
  {
  }

  // The run that ends with one more call of `key`.
  lemma OneMoreCall(p: Policy, calls: seq<Call>, key: Key, now: nat)
    requires p.Enabled() && CalledBy(calls, now)
    ensures var (t', v) := Note(p, Play(p, calls).0, key, now);
      var (u, log) := Play(p, calls + [Call(key, now)]);
      CalledBy(calls + [Call(key, now)], now) && u == t' && log != [] && log[|log| - 1] == Entry(key, now, v)
  {
    PlayOne(p, calls, Call(key, now));
  }

  // Calling again and again at `now` ends in the next ban of the run.
  lemma {:induction false} PressOn(p: Policy, calls: seq<Call>, key: Key, now: nat) returns (more: seq<Call>)
    requires p.Enabled() && CalledBy(calls, now)
    requires var t := Play(p, calls).0;
      key in t && t[key].until <= now && now - p.Forget() < t[key].updatedAt <= now && t[key].windowStart <= now
    ensures EndsBanned(p, more, key, now, Play(p, calls).0[key].banCount + 1)
    decreases Missing(p, Play(p, calls).0[key], now)
  {
    var t := Play(p, calls).0;
    OnePress(p, t, key, now);
    OneMoreCall(p, calls, key, now);
    more := calls + [Call(key, now)];
    if Note(p, t, key, now).1.Counted? {
      more := PressOn(p, more, key, now);
    }
  }

  lemma {:induction false} ClimbTo(p: Policy, key: Key, count: nat) returns (calls: seq<Call>, now: nat)
    requires p.Enabled() && 0 < count <= |p.steps| && ShortSteps(p, count - 1)
    ensures EndsBanned(p, calls, key, now, count)
  {
    if count == 1 {
      now := 0;
      calls := [Call(key, now)];
      PlayOne(p, [], Call(key, now));
      if Note(p, map[], key, now).1.Counted? {
        calls := PressOn(p, calls, key, now);
      }
    } else {
      calls, now := ClimbTo(p, key, count - 1);
      now := now + p.steps[count - 2];
      calls := PressOn(p, calls, key, now);
    }
  }

  lemma TooLongAStepIsForgotten(p: Policy)
    requires p.Enabled() && !PruneSafe(p)
    ensures !Faithful(p)
  {
    var i :| 0 <= i < |p.steps| && p.steps[i] > p.Forget() && forall j :: 0 <= j < i ==> p.steps[j] < p.Forget();
    var key: Key := "ip:198.51.100.7";
    var calls, start := ClimbTo(p, key, i + 1);
    var (t, log) := Play(p, calls);
    var now := start + p.Forget();
    assert BanRunning(log, key, now) by {
      assert log[|log| - 1].verdict.Banned?;
    }
    assert key !in Live(p, t, now);
    assert !Note(p, t, key, now).1.Ignored?;
    assert CalledBy(calls, now);
  }

  /** Pruning is unobservable on every run if and only if the first step that is at
      least the forget period, if there is one, equals it. */
  lemma FaithfulIffPruneSafe(p: Policy)
    requires p.Enabled()
    ensures Faithful(p) <==> PruneSafe(p)
  {
    if PruneSafe(p) {
      forall calls: seq<Call>, key: Key, now: nat
        | Monotone(calls) && (forall i :: 0 <= i < |calls| ==> calls[i].time <= now)
        ensures Note(p, Play(p, calls).0, key, now).1.Ignored? <==> BanRunning(Play(p, calls).1, key, now)
      {
        LadderRefinesHistory(p, calls, key, now);
      }
    } else {
      TooLongAStepIsForgotten(p);
    }
  }

  // The configuration that ships: ten strikes in 15 minutes; 10 s, 1 min, 5 min, 24 h.
  const DEFAULT_POLICY := Policy(900, 10, [10, 60, 300, 86400], 86400)

  /** Under the shipped policy pruning is unobservable and two 24 hour bans of one
      key are at least 24 hours, 6 minutes and 10 seconds apart. */
  lemma DefaultPolicy()
    ensures DEFAULT_POLICY.Enabled() && Faithful(DEFAULT_POLICY) && TopForgets(DEFAULT_POLICY)
    ensures StepSum(DEFAULT_POLICY, 4) == 86770
  {
    assert PruneSafe(DEFAULT_POLICY);
    FaithfulIffPruneSafe(DEFAULT_POLICY);
    assert StepSum(DEFAULT_POLICY, 2) == 70;
  }
}
