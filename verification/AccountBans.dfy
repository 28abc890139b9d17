/** Account-level consequences of abuse bans: the block that mirrors a ban, the
    windowed count of top-level bans, and automatic deletion of the account.

    One request is one step. The outcomes of the calls to the voice gateway are
    inputs: `cleaned` for the banned-user cleanup, `closed` for closing owned rooms. */
module AccountBans {
  import opened Wrappers
  import opened BanLadder

  type UserID = string

  datatype Config = Config(policy: Policy, window: nat, deletionCount: int)
  datatype AccountBan = AccountBan(user: UserID, createdAt: nat)
  datatype Db = Db(bans: Table, blocks: map<UserID, nat>, accountBans: seq<AccountBan>, users: set<UserID>)

  // The session token of a request: none, one that fails to authenticate, or a user's.
  datatype Token = Anonymous | Invalid | Session(user: UserID)

  datatype Request =
    | Violation(token: Token, ip: string, now: nat, cleaned: bool, closed: bool)
    | CheckBlock(user: UserID, now: nat)
    | RemoveUser(user: UserID, now: nat)

  datatype Outcome = Quiet | Blocked(until: nat) | Recorded(count: nat, deleted: bool)

  function AccountKey(user: UserID): Key {
    "account:" + user
  }

  function IpKey(ip: string): Key {
    "ip:" + ip
  }

  lemma KeysAreDistinct(user: UserID, other: UserID, ip: string)
    ensures AccountKey(user) == AccountKey(other) ==> user == other
    ensures AccountKey(user) != IpKey(ip)
  {
    assert AccountKey(user)[8..] == user && AccountKey(other)[8..] == other;
    assert AccountKey(user)[0] == 'a' && IpKey(ip)[0] == 'i';
  }

  function Prune(bans: seq<AccountBan>, cutoff: int): seq<AccountBan> {
    if bans == [] then []
    else
      var last := bans[|bans| - 1];
      Prune(bans[..|bans| - 1], cutoff) + (if last.createdAt >= cutoff then [last] else [])
  }

  function CountSince(bans: seq<AccountBan>, user: UserID, cutoff: int): nat {
    if bans == [] then 0
    else
      var last := bans[|bans| - 1];
      CountSince(bans[..|bans| - 1], user, cutoff) + (if last.user == user && last.createdAt >= cutoff then 1 else 0)
  }

  // One RecordAccountBan transaction.
  function RecordRow(rows: seq<AccountBan>, user: UserID, now: nat, window: nat): seq<AccountBan> {
    Prune(rows, now - window) + [AccountBan(user, now)]
  }

  function Limit(p: Policy, t: Table, key: Key, now: nat): (Table, Verdict) {
    if p.Enabled() then Note(p, t, key, now) else (t, Ignored)
  }

  // ON DELETE CASCADE removes the rows that refer to the user; `ip_bans` keeps its key.
  function WithoutUser(db: Db, user: UserID): Db {
    db.(blocks := db.blocks - {user}, users := db.users - {user},
        accountBans := DropUser(db.accountBans, user))
  }

  function DropUser(bans: seq<AccountBan>, user: UserID): (r: seq<AccountBan>)
    ensures forall b :: b in r <==> b in bans && b.user != user
  {
    if bans == [] then []
    else
      var last := bans[|bans| - 1];
      DropUser(bans[..|bans| - 1], user) + (if last.user != user then [last] else [])
  }

  // Enforcer.NoteViolation for an authenticated account.
  function Enforce(c: Config, db: Db, user: UserID, now: nat, cleaned: bool, closed: bool): (Db, Outcome) {
    var (bans, verdict) := Limit(c.policy, db.bans, AccountKey(user), now);
    if !verdict.Banned? then (db.(bans := bans), Quiet)
    else
      var blocked := db.(bans := bans, blocks := db.blocks[user := verdict.until]);
      if !cleaned || verdict.level < |c.policy.steps| then (blocked, Blocked(verdict.until))
      else
        var recorded := RecordRow(db.accountBans, user, now, c.window);
        var count := CountSince(recorded, user, now - c.window);
        var db' := blocked.(accountBans := recorded);
        if count < c.deletionCount || !closed then (db', Recorded(count, false))
        else (WithoutUser(db', user), Recorded(count, true))
  }

  function Apply(c: Config, db: Db, r: Request): (Db, Outcome) {
    match r
    case Violation(Anonymous, ip, now, _, _) => (db.(bans := Limit(c.policy, db.bans, IpKey(ip), now).0), Quiet)
    case Violation(Invalid, _, _, _, _) => (db, Quiet)
    case Violation(Session(user), _, now, cleaned, closed) =>
      if user in db.users then Enforce(c, db, user, now, cleaned, closed) else (db, Quiet)
    case CheckBlock(user, now) =>
      if user in db.blocks && db.blocks[user] <= now then (db.(blocks := db.blocks - {user}), Quiet) else (db, Quiet)
    case RemoveUser(user, _) => (WithoutUser(db, user), Quiet)
  }

  class Enforcer {
    const store: BanStore
    var blocks: map<UserID, nat>
    var accountBans: seq<AccountBan>
    var users: set<UserID>

    constructor (store: BanStore)
      ensures this.store == store && blocks == map[] && accountBans == [] && users == {}
    {
      this.store := store;
      blocks, accountBans, users := map[], [], {};
    }

    function Contents(): Db
      reads this, store
    {
      Db(store.bans, blocks, accountBans, users)
    }

    method RecordAccountBan(user: UserID, now: nat, window: nat) returns (count: nat)
      modifies this`accountBans
      ensures accountBans == RecordRow(old(accountBans), user, now, window)
      ensures count == CountSince(old(accountBans), user, now - window) + 1 == CountSince(accountBans, user, now - window)
    {
      RecordCountsAll(accountBans, user, now, window);
      accountBans := Prune(accountBans, now - window) + [AccountBan(user, now)];
      count := CountSince(accountBans, user, now - window);
    }

    method DeleteUser(user: UserID)
      modifies this
      ensures Contents() == WithoutUser(old(Contents()), user)
      ensures user !in users && user !in blocks && forall b :: b in accountBans ==> b.user != user
    {
      users := users - {user};
      blocks := blocks - {user};
      accountBans := DropUser(accountBans, user);
    }

    method AccountBlockActive(user: UserID, now: nat, ghost c: Config) returns (active: bool, until: nat)
      modifies this`blocks
      ensures Contents() == Apply(c, old(Contents()), CheckBlock(user, now)).0
      ensures active <==> user in old(blocks) && old(blocks)[user] > now
      ensures active ==> until == old(blocks)[user]
      ensures blocks == if user in old(blocks) && !active then old(blocks) - {user} else old(blocks)
    {
      if user !in blocks {
        return false, 0;
      }
      until := blocks[user];
      if until <= now {
        blocks := blocks - {user};
        return false, 0;
      }
      return true, until;
    }

    method NoteViolation(c: Config, token: Token, ip: string, now: nat, cleaned: bool, closed: bool)
      returns (outcome: Outcome)
      modifies this, store
      ensures (Contents(), outcome) == Apply(c, old(Contents()), Violation(token, ip, now, cleaned, closed))
    {
      outcome := Quiet;
      if token.Anonymous? {
        var _, _ := store.NoteViolation(c.policy, IpKey(ip), now);
        return;
      }
      if token.Invalid? || token.user !in users {
        return;
      }
      var user := token.user;
      var level, until := store.NoteViolation(c.policy, AccountKey(user), now);
      if level == 0 {
        return;
      }
      blocks := blocks[user := until];
      outcome := Blocked(until);
      if !cleaned || level < |c.policy.steps| {
        return;
      }
      var count := RecordAccountBan(user, now, c.window);
      outcome := Recorded(count, false);
      if count < c.deletionCount || !closed {
        return;
      }
      DeleteUser(user);
      outcome := Recorded(count, true);
    }
  }

  // ----- Runs of requests -----

  // The database together with the history it summarises: every ban-table call,
  // and every account ban ever recorded.
  datatype World = World(db: Db, calls: seq<Call>, tops: seq<AccountBan>)

  function TimeOf(r: Request): nat {
    r.now
  }

  function CallsOf(db: Db, r: Request): seq<Call> {
    match r
    case Violation(Anonymous, ip, now, _, _) => [Call(IpKey(ip), now)]
    case Violation(Session(user), _, now, _, _) => if user in db.users then [Call(AccountKey(user), now)] else []
    case _ => []
  }

  function Advance(c: Config, w: World, r: Request): World {
    var (db, outcome) := Apply(c, w.db, r);
    World(db, w.calls + CallsOf(w.db, r),
          if outcome.Recorded? && r.Violation? && r.token.Session? then w.tops + [AccountBan(r.token.user, r.now)] else w.tops)
  }

  // `users` are the accounts of the run; one that has not registered yet sends nothing.
  function Run(c: Config, users: set<UserID>, rs: seq<Request>): World {
    if rs == [] then World(Db(map[], map[], [], users), [], [])
    else Advance(c, Run(c, users, rs[..|rs| - 1]), rs[|rs| - 1])
  }

  ghost predicate Ordered(rs: seq<Request>) {
    forall i, j :: 0 <= i < j < |rs| ==> TimeOf(rs[i]) <= TimeOf(rs[j])
  }

  ghost function History(c: Config, w: World, user: UserID): seq<Hit>
    requires c.policy.Enabled()
  {
    Hits(Play(c.policy, w.calls).1, AccountKey(user))
  }

  // The block row says at any later time what the ban history says.
  ghost predicate BlockMirrors(db: Db, user: UserID, hits: seq<Hit>, clock: nat) {
    forall now: nat :: now >= clock ==> (user in db.blocks && db.blocks[user] > now <==> Running(hits, now))
  }

  // From `since` on the pruned rows count like the full record.
  ghost predicate CountMirrors(rows: seq<AccountBan>, tops: seq<AccountBan>, user: UserID, since: int) {
    forall cutoff: int :: cutoff >= since ==> CountSince(rows, user, cutoff) == CountSince(tops, user, cutoff)
  }

  ghost predicate TopAt(p: Policy, hits: seq<Hit>, time: nat) {
    exists k :: 0 <= k < |hits| && IsTop(p, hits[k]) && hits[k].time == time
  }

  // Every recorded account ban is a top-level ban of the account's key.
  ghost predicate TopsAreBans(p: Policy, tops: seq<AccountBan>, user: UserID, hits: seq<Hit>) {
    forall i :: 0 <= i < |tops| && tops[i].user == user ==> TopAt(p, hits, tops[i].createdAt)
  }

  ghost predicate SpacedBy(tops: seq<AccountBan>, user: UserID, gap: nat) {
    forall i, j :: 0 <= i < j < |tops| && tops[i].user == tops[j].user == user ==>
      tops[j].createdAt >= tops[i].createdAt + gap
  }

  // The ban table is the one of the recorded calls.
  ghost predicate Played(c: Config, w: World, clock: nat)
    requires c.policy.Enabled()
  {
    w.db.bans == Play(c.policy, w.calls).0 && CalledBy(w.calls, clock)
  }

  // What two top-level bans are apart. Where pruning is unobservable that is all steps.
  ghost function TopGap(p: Policy): nat
    requires p.Enabled()
  {
    if PruneSafe(p) then StepSum(p, |p.steps|) else p.Forget() + StepSum(p, |p.steps| - 1)
  }

  ghost predicate TopsRare(p: Policy, tops: seq<AccountBan>, user: UserID, hits: seq<Hit>)
    requires p.Enabled()
  {
    TopsAreBans(p, tops, user, hits) && SpacedBy(tops, user, TopGap(p))
  }

  // Ban table, block row and counted rows agree with the full history of the account.
  ghost predicate Good(c: Config, w: World, user: UserID, clock: nat)
    requires c.policy.Enabled()
  {
    && Played(c, w, clock) && Tracks(c.policy, w.db.bans, AccountKey(user), History(c, w, user), clock)
    && BlockMirrors(w.db, user, History(c, w, user), clock)
    && CountMirrors(w.db.accountBans, w.tops, user, clock - c.window)
  }

  lemma {:induction false} PruneKeepsCount(bans: seq<AccountBan>, user: UserID, pruned: int, cutoff: int)
    requires pruned <= cutoff
    ensures CountSince(Prune(bans, pruned), user, cutoff) == CountSince(bans, user, cutoff)
  {
    if bans != [] {
      var last := bans[|bans| - 1];
      var front := Prune(bans[..|bans| - 1], pruned);
      PruneKeepsCount(bans[..|bans| - 1], user, pruned, cutoff);
      assert (front + [last])[..|front|] == front && front + [] == front;
    }
  }

  lemma {:induction false} DropKeepsCount(bans: seq<AccountBan>, gone: UserID, user: UserID, cutoff: int)
    requires gone != user
    ensures CountSince(DropUser(bans, gone), user, cutoff) == CountSince(bans, user, cutoff)
  {
    if bans != [] {
      var last := bans[|bans| - 1];
      var front := DropUser(bans[..|bans| - 1], gone);
      DropKeepsCount(bans[..|bans| - 1], gone, user, cutoff);
      assert (front + [last])[..|front|] == front && front + [] == front;
    }
  }

  lemma {:induction false} PruneKeeps(bans: seq<AccountBan>, cutoff: int)
    ensures forall b :: b in Prune(bans, cutoff) <==> b in bans && b.createdAt >= cutoff
  {
    if bans != [] {
      PruneKeeps(bans[..|bans| - 1], cutoff);
    }
  }

  /** Recording a ban keeps exactly the rows inside the window and adds the new one; the
      count it returns is that of the unpruned rows and the new one. */
  lemma RecordCountsAll(rows: seq<AccountBan>, user: UserID, now: nat, window: nat)
    ensures var after := RecordRow(rows, user, now, window);
      && (forall b :: b in after <==> b == AccountBan(user, now) || (b in rows && b.createdAt >= now - window))
      && CountSince(after, user, now - window) == CountSince(rows, user, now - window) + 1
  {
    var kept, b := Prune(rows, now - window), AccountBan(user, now);
    PruneKeeps(rows, now - window);
    assert forall x :: x in kept + [b] <==> x in kept || x == b;
    PruneKeepsCount(rows, user, now - window, now - window);
    CountAppend(kept, b, user, now - window);
  }

  lemma CountAppend(bans: seq<AccountBan>, b: AccountBan, user: UserID, cutoff: int)
    ensures CountSince(bans + [b], user, cutoff) ==
      CountSince(bans, user, cutoff) + (if b.user == user && b.createdAt >= cutoff then 1 else 0)
  {
    assert (bans + [b])[..|bans|] == bans;
  }

  lemma {:induction false} SpacedCount(tops: seq<AccountBan>, user: UserID, cutoff: int, gap: nat) returns (first: nat, last: nat)
    requires SpacedBy(tops, user, gap) && CountSince(tops, user, cutoff) > 0
    ensures first <= last < |tops|
    ensures tops[first].user == tops[last].user == user && tops[first].createdAt >= cutoff
    ensures tops[last].createdAt >= tops[first].createdAt + Times(CountSince(tops, user, cutoff) - 1, gap)
    ensures forall i :: last < i < |tops| && tops[i].user == user ==> tops[i].createdAt < cutoff
  {
    var n := |tops| - 1;
    if tops[n].user != user || tops[n].createdAt < cutoff {
      first, last := SpacedCount(tops[..n], user, cutoff, gap);
    } else if CountSince(tops[..n], user, cutoff) == 0 {
      first, last := n, n;
    } else {
      var m := CountSince(tops[..n], user, cutoff);
      first, last := SpacedCount(tops[..n], user, cutoff, gap);
      assert tops[n].createdAt >= tops[last].createdAt + gap;
      assert CountSince(tops, user, cutoff) == m + 1;
      last := n;
    }
  }

  // One more ban-table call, seen from the history of `key`.
  lemma OneCall(p: Policy, calls: seq<Call>, c: Call, key: Key)
    requires p.Enabled() && CalledBy(calls, c.time)
    ensures var hits := HitsOf(p, calls, key);
      var (t, v) := Note(p, Play(p, calls).0, c.key, c.time);
      && Play(p, calls + [c]).0 == t && CalledBy(calls + [c], c.time)
      && HitsOf(p, calls + [c], key) == if c.key == key && !v.Ignored? then hits + [HitOf(Entry(key, c.time, v))] else hits
  {
    PlayOne(p, calls, c);
    HitsExtend(Play(p, calls).1, Entry(c.key, c.time, Note(p, Play(p, calls).0, c.key, c.time).1), key);
  }

  lemma RunningExtend(hits: seq<Hit>, h: Hit, now: nat)
    ensures Running(hits + [h], now) <==> Running(hits, now) || (h.level > 0 && h.until > now)
  {
    var more := hits + [h];
    if Running(hits, now) {
      var i :| 0 <= i < |hits| && hits[i].level > 0 && hits[i].until > now;
      assert more[i] == hits[i];
    }
    if h.level > 0 && h.until > now {
      assert more[|hits|] == h;
    }
  }

  lemma BlockAfterCall(db: Db, db': Db, user: UserID, hits: seq<Hit>, h: Hit, clock: nat, now: nat)
    requires BlockMirrors(db, user, hits, clock) && clock <= now && !Running(hits, now)
    requires db'.blocks == if h.level > 0 then db.blocks[user := h.until] else db.blocks
    ensures BlockMirrors(db', user, hits + [h], now)
  {
    forall later: nat | later >= now
      ensures user in db'.blocks && db'.blocks[user] > later <==> Running(hits + [h], later)
    {
      RunningExtend(hits, h, later);
    }
  }

  lemma TopsExtend(p: Policy, tops: seq<AccountBan>, user: UserID, hits: seq<Hit>, h: Hit)
    requires TopsAreBans(p, tops, user, hits)
    ensures TopsAreBans(p, tops, user, hits + [h])
  {
    forall i | 0 <= i < |tops| && tops[i].user == user
      ensures TopAt(p, hits + [h], tops[i].createdAt)
    {
      var k :| 0 <= k < |hits| && IsTop(p, hits[k]) && hits[k].time == tops[i].createdAt;
      assert (hits + [h])[k] == hits[k];
    }
  }

  // A newly recorded top-level ban keeps the recorded ones rare.
  lemma TopsAppend(p: Policy, calls: seq<Call>, tops: seq<AccountBan>, user: UserID, hits: seq<Hit>, h: Hit)
    requires TopForgets(p) && Monotone(calls) && HitsOf(p, calls, AccountKey(user)) == hits + [h] && IsTop(p, h)
    requires TopsRare(p, tops, user, hits)
    ensures TopsRare(p, tops + [AccountBan(user, h.time)], user, hits + [h])
  {
    var more := hits + [h];
    TopsExtend(p, tops, user, hits, h);
    assert TopAt(p, more, h.time) by {
      assert more[|hits|] == h;
    }
    forall i | 0 <= i < |tops| && tops[i].user == user
      ensures h.time >= tops[i].createdAt + TopGap(p)
    {
      var k :| 0 <= k < |hits| && IsTop(p, hits[k]) && hits[k].time == tops[i].createdAt;
      assert more[k] == hits[k];
      TopBansAreRare(p, calls, AccountKey(user), k, |hits|);
    }
  }

  lemma MirrorsAfterRecord(rows: seq<AccountBan>, tops: seq<AccountBan>, user: UserID, other: UserID, now: nat, window: nat)
    requires CountMirrors(rows, tops, user, now - window)
    ensures CountMirrors(RecordRow(rows, other, now, window), tops + [AccountBan(other, now)], user, now - window)
  {
    var b := AccountBan(other, now);
    forall cutoff: int | cutoff >= now - window
      ensures CountSince(RecordRow(rows, other, now, window), user, cutoff) == CountSince(tops + [b], user, cutoff)
    {
      PruneKeepsCount(rows, user, now - window, cutoff);
      CountAppend(Prune(rows, now - window), b, user, cutoff);
      CountAppend(tops, b, user, cutoff);
    }
  }

  lemma MirrorsAfterDrop(rows: seq<AccountBan>, tops: seq<AccountBan>, user: UserID, gone: UserID, since: int)
    requires CountMirrors(rows, tops, user, since) && gone != user
    ensures CountMirrors(DropUser(rows, gone), tops, user, since)
  {
    forall cutoff: int | cutoff >= since
      ensures CountSince(DropUser(rows, gone), user, cutoff) == CountSince(tops, user, cutoff)
    {
      DropKeepsCount(rows, gone, user, cutoff);
    }
  }

  // What the account's own violation adds to its history.
  function OwnHits(c: Config, w: World, user: UserID, now: nat): seq<Hit>
    requires c.policy.Enabled()
  {
    var v := Note(c.policy, w.db.bans, AccountKey(user), now).1;
    if v.Ignored? then [] else [HitOf(Entry(AccountKey(user), now, v))]
  }

  ghost predicate IsOwn(r: Request, user: UserID) {
    r.Violation? && r.token == Session(user)
  }

  lemma OwnCall(c: Config, db: Db, r: Request, user: UserID)
    requires c.policy.Enabled() && IsOwn(r, user) && user in db.users
    ensures CallsOf(db, r) == [Call(AccountKey(user), r.now)]
    ensures Apply(c, db, r).0.bans == Note(c.policy, db.bans, AccountKey(user), r.now).0
  {
  }

  lemma OwnPlays(c: Config, w: World, r: Request, user: UserID)
    requires c.policy.Enabled() && user in w.db.users && Played(c, w, r.now) && IsOwn(r, user)
    ensures Played(c, Advance(c, w, r), r.now)
    ensures History(c, Advance(c, w, r), user) == History(c, w, user) + OwnHits(c, w, user, r.now)
  {
    OwnCall(c, w.db, r, user);
    OneCall(c.policy, w.calls, Call(AccountKey(user), r.now), AccountKey(user));
  }

  lemma OwnHitsIff(c: Config, w: World, user: UserID, now: nat)
    requires c.policy.Enabled() && PruneSafe(c.policy) && Played(c, w, now)
    ensures OwnHits(c, w, user, now) == [] <==> Running(History(c, w, user), now)
  {
    PlayTracks(c.policy, w.calls, AccountKey(user), now);
    NoteTracksCaller(c.policy, w.db.bans, AccountKey(user), History(c, w, user), now);
  }

  lemma OwnBlock(c: Config, w: World, r: Request, user: UserID)
    requires c.policy.Enabled() && user in w.db.users && IsOwn(r, user)
    requires BlockMirrors(w.db, user, History(c, w, user), r.now)
    requires OwnHits(c, w, user, r.now) == [] <==> Running(History(c, w, user), r.now)
    requires user in Advance(c, w, r).db.users
    ensures BlockMirrors(Advance(c, w, r).db, user, History(c, w, user) + OwnHits(c, w, user, r.now), r.now)
  {
    var hits, own := History(c, w, user), OwnHits(c, w, user, r.now);
    BannedLevelPositive(c.policy, w.db.bans, AccountKey(user), r.now);
    if own == [] {
      assert hits + own == hits;
    } else {
      BlockAfterCall(w.db, Advance(c, w, r).db, user, hits, own[0], r.now, r.now);
    }
  }

  // A request that records an account ban has just made a top-level ban.
  lemma RecordedHit(c: Config, w: World, r: Request, user: UserID)
    requires c.policy.Enabled() && user in w.db.users && IsOwn(r, user) && Apply(c, w.db, r).1.Recorded?
    ensures var own := OwnHits(c, w, user, r.now);
      |own| == 1 && IsTop(c.policy, own[0]) && own[0].time == r.now
  {
    OwnIsEnforce(c, w.db, r, user);
    LevelWithinSteps(c.policy, w.db.bans, AccountKey(user), r.now);
  }

  lemma OwnTops(c: Config, w: World, r: Request, user: UserID)
    requires TopForgets(c.policy) && user in w.db.users && IsOwn(r, user) && Played(c, w, r.now)
    requires TopsRare(c.policy, w.tops, user, History(c, w, user))
    ensures TopsRare(c.policy, Advance(c, w, r).tops, user, History(c, Advance(c, w, r), user))
  {
    var hits, own := History(c, w, user), OwnHits(c, w, user, r.now);
    OwnPlays(c, w, r, user);
    if Apply(c, w.db, r).1.Recorded? {
      RecordedShape(c, w, r, user);
      RecordedHit(c, w, r, user);
      assert own == [own[0]];
      TopsAppend(c.policy, Advance(c, w, r).calls, w.tops, user, hits, own[0]);
    } else if own == [] {
      assert hits + own == hits;
    } else {
      TopsExtend(c.policy, w.tops, user, hits, own[0]);
    }
  }

  lemma LevelWithinSteps(p: Policy, t: Table, key: Key, now: nat)
    requires p.Enabled()
    ensures var v := Note(p, t, key, now).1; v.Banned? ==> v.level <= |p.steps|
  {
  }

  lemma EnforceRecorded(c: Config, db: Db, user: UserID, now: nat, cleaned: bool, closed: bool)
    requires Enforce(c, db, user, now, cleaned, closed).1.Recorded? && user in db.users
    ensures var (db', outcome) := Enforce(c, db, user, now, cleaned, closed);
      var recorded := RecordRow(db.accountBans, user, now, c.window);
      && outcome.count == CountSince(recorded, user, now - c.window)
      && (outcome.deleted <==> outcome.count >= c.deletionCount && closed)
      && (!outcome.deleted ==> db'.accountBans == recorded)
      && (outcome.deleted <==> user !in db'.users)
  {
  }

  lemma OwnIsEnforce(c: Config, db: Db, r: Request, user: UserID)
    requires IsOwn(r, user)
    ensures Apply(c, db, r) == if user in db.users then Enforce(c, db, user, r.now, r.cleaned, r.closed) else (db, Quiet)
  {
  }

  // The rows and the verdict of a request that records an account ban.
  lemma RecordedShape(c: Config, w: World, r: Request, user: UserID)
    requires IsOwn(r, user) && Apply(c, w.db, r).1.Recorded?
    ensures Advance(c, w, r).tops == w.tops + [AccountBan(user, r.now)]
    ensures var (db, outcome) := Apply(c, w.db, r);
      var recorded := RecordRow(w.db.accountBans, user, r.now, c.window);
      && outcome.count == CountSince(recorded, user, r.now - c.window)
      && (outcome.deleted <==> outcome.count >= c.deletionCount && r.closed)
      && (!outcome.deleted ==> db.accountBans == recorded)
      && (outcome.deleted <==> user !in db.users)
  {
    OwnIsEnforce(c, w.db, r, user);
    EnforceRecorded(c, w.db, user, r.now, r.cleaned, r.closed);
  }

  lemma OwnCount(c: Config, w: World, r: Request, user: UserID)
    requires CountMirrors(w.db.accountBans, w.tops, user, r.now - c.window) && IsOwn(r, user)
    requires user in Advance(c, w, r).db.users
    ensures CountMirrors(Advance(c, w, r).db.accountBans, Advance(c, w, r).tops, user, r.now - c.window)
  {
    if Apply(c, w.db, r).1.Recorded? {
      RecordedShape(c, w, r, user);
      MirrorsAfterRecord(w.db.accountBans, w.tops, user, user, r.now, c.window);
    } else {
      assert Advance(c, w, r).db.accountBans == w.db.accountBans;
    }
  }

  lemma OtherCall(c: Config, db: Db, r: Request, user: UserID)
    requires c.policy.Enabled() && !IsOwn(r, user)
    ensures var calls := CallsOf(db, r);
      if calls == [] then Apply(c, db, r).0.bans == db.bans
      else
        && calls == [calls[0]] && calls[0].time == r.now && calls[0].key != AccountKey(user)
        && Apply(c, db, r).0.bans == Note(c.policy, db.bans, calls[0].key, r.now).0
  {
    if r.Violation? {
      KeysAreDistinct(user, if r.token.Session? then r.token.user else user, r.ip);
    }
  }

  lemma OtherPlays(c: Config, w: World, r: Request, user: UserID)
    requires c.policy.Enabled() && Played(c, w, r.now) && !IsOwn(r, user)
    ensures Played(c, Advance(c, w, r), r.now)
    ensures History(c, Advance(c, w, r), user) == History(c, w, user)
  {
    var calls := CallsOf(w.db, r);
    var w' := Advance(c, w, r);
    OtherCall(c, w.db, r, user);
    if calls == [] {
      assert w'.calls == w.calls;
    } else {
      OneCall(c.policy, w.calls, calls[0], AccountKey(user));
      assert w'.calls == w.calls + [calls[0]];
    }
  }

  lemma OtherBlock(c: Config, w: World, r: Request, user: UserID)
    requires c.policy.Enabled() && !IsOwn(r, user)
    requires BlockMirrors(w.db, user, History(c, w, user), r.now)
    requires user in w.db.users && user in Advance(c, w, r).db.users
    ensures BlockMirrors(Advance(c, w, r).db, user, History(c, w, user), r.now)
  {
  }

  // What a step of someone else does to the account-ban rows and their record.
  lemma OtherRows(c: Config, w: World, r: Request, user: UserID) returns (other: UserID, gone: UserID)
    requires !IsOwn(r, user) && user in Advance(c, w, r).db.users
    ensures other != user && gone != user
    ensures var w' := Advance(c, w, r);
      var recorded := w'.tops == w.tops + [AccountBan(other, r.now)];
      var rows := if recorded then RecordRow(w.db.accountBans, other, r.now, c.window) else w.db.accountBans;
      && (recorded || w'.tops == w.tops)
      && (w'.db.accountBans == rows || w'.db.accountBans == DropUser(rows, gone))
  {
    other := if r.Violation? && r.token.Session? then r.token.user else user + "-";
    gone := if r.RemoveUser? then r.user else other;
    if r.RemoveUser? {
      assert r.user != user;
    }
  }

  lemma OtherCounts(c: Config, w: World, r: Request, user: UserID)
    requires CountMirrors(w.db.accountBans, w.tops, user, r.now - c.window) && !IsOwn(r, user)
    requires user in Advance(c, w, r).db.users
    ensures CountMirrors(Advance(c, w, r).db.accountBans, Advance(c, w, r).tops, user, r.now - c.window)
  {
    var other, gone := OtherRows(c, w, r, user);
    MirrorsAfterRecord(w.db.accountBans, w.tops, user, other, r.now, c.window);
    var w' := Advance(c, w, r);
    var rows := if w'.tops == w.tops + [AccountBan(other, r.now)]
                then RecordRow(w.db.accountBans, other, r.now, c.window) else w.db.accountBans;
    MirrorsAfterDrop(rows, w'.tops, user, gone, r.now - c.window);
  }

  lemma OtherTops(c: Config, w: World, r: Request, user: UserID)
    requires c.policy.Enabled() && !IsOwn(r, user) && user in Advance(c, w, r).db.users
    requires TopsRare(c.policy, w.tops, user, History(c, w, user))
    ensures TopsRare(c.policy, Advance(c, w, r).tops, user, History(c, w, user))
  {
    var other, gone := OtherRows(c, w, r, user);
    TopsRareAppendOther(c.policy, w.tops, user, other, r.now, History(c, w, user));
  }

  lemma TopsRareAppendOther(p: Policy, tops: seq<AccountBan>, user: UserID, other: UserID, now: nat, hits: seq<Hit>)
    requires p.Enabled() && TopsRare(p, tops, user, hits) && other != user
    ensures TopsRare(p, tops + [AccountBan(other, now)], user, hits)
  {
  }

  // The requests of a run up to its last, seen at the time of the last.
  lemma Earlier(rs: seq<Request>)
    requires Ordered(rs) && rs != []
    ensures var n := |rs| - 1; Ordered(rs[..n]) && Until(rs[..n], rs[n].now)
  {
  }

  ghost predicate Until(rs: seq<Request>, now: nat) {
    forall i :: 0 <= i < |rs| ==> TimeOf(rs[i]) <= now
  }

  lemma CalledLater(calls: seq<Call>, clock: nat, now: nat)
    requires CalledBy(calls, clock) && clock <= now
    ensures CalledBy(calls, now)
  {
  }

  lemma {:induction false} RunPlays(c: Config, users: set<UserID>, rs: seq<Request>, now: nat)
    requires c.policy.Enabled() && Ordered(rs) && Until(rs, now)
    ensures Played(c, Run(c, users, rs), now)
  {
    if rs != [] {
      var n := |rs| - 1;
      var w, r := Run(c, users, rs[..n]), rs[n];
      Earlier(rs);
      RunPlays(c, users, rs[..n], r.now);
      if r.Violation? && r.token.Session? && r.token.user in w.db.users {
        OwnPlays(c, w, r, r.token.user);
      } else {
        var other := if r.Violation? && r.token.Session? then r.token.user + "-" else "";
        assert r.Violation? && r.token.Session? ==> |other| == |r.token.user| + 1;
        OtherPlays(c, w, r, other);
      }
      CalledLater(Run(c, users, rs).calls, r.now, now);
    }
  }

  /** In every run, whatever the policy, the pruned account-ban rows of an account that
      still exists count like the full record. */
  lemma {:induction false} RunCounts(c: Config, users: set<UserID>, rs: seq<Request>, user: UserID, now: nat)
    requires Ordered(rs) && Until(rs, now) && user in Run(c, users, rs).db.users
    ensures CountMirrors(Run(c, users, rs).db.accountBans, Run(c, users, rs).tops, user, now - c.window)
  {
    if rs != [] {
      var n := |rs| - 1;
      var w, r := Run(c, users, rs[..n]), rs[n];
      assert user in w.db.users;
      Earlier(rs);
      RunCounts(c, users, rs[..n], user, r.now);
      if IsOwn(r, user) {
        OwnCount(c, w, r, user);
      } else {
        OtherCounts(c, w, r, user);
      }
    }
  }

  lemma {:induction false} RunBlocks(c: Config, users: set<UserID>, rs: seq<Request>, user: UserID, now: nat)
    requires c.policy.Enabled() && PruneSafe(c.policy) && Ordered(rs) && Until(rs, now)
    requires user in Run(c, users, rs).db.users
    ensures BlockMirrors(Run(c, users, rs).db, user, History(c, Run(c, users, rs), user), now)
  {
    if rs != [] {
      var n := |rs| - 1;
      var w, r := Run(c, users, rs[..n]), rs[n];
      assert user in w.db.users;
      Earlier(rs);
      RunBlocks(c, users, rs[..n], user, r.now);
      RunPlays(c, users, rs[..n], r.now);
      if IsOwn(r, user) {
        OwnPlays(c, w, r, user);
        OwnHitsIff(c, w, user, r.now);
        OwnBlock(c, w, r, user);
      } else {
        OtherPlays(c, w, r, user);
        OtherBlock(c, w, r, user);
      }
    }
  }

  /** In every run under a ladder whose last step is at least the forget period, the
      recorded account bans of an account are top-level bans of its key, far apart. */
  lemma {:induction false} RunTops(c: Config, users: set<UserID>, rs: seq<Request>, user: UserID, now: nat)
    requires TopForgets(c.policy) && Ordered(rs) && Until(rs, now) && user in Run(c, users, rs).db.users
    ensures TopsRare(c.policy, Run(c, users, rs).tops, user, History(c, Run(c, users, rs), user))
  {
    if rs != [] {
      var n := |rs| - 1;
      var w, r := Run(c, users, rs[..n]), rs[n];
      assert user in w.db.users;
      Earlier(rs);
      RunTops(c, users, rs[..n], user, r.now);
      RunPlays(c, users, rs[..n], r.now);
      if IsOwn(r, user) {
        OwnTops(c, w, r, user);
      } else {
        OtherPlays(c, w, r, user);
        OtherTops(c, w, r, user);
      }
    }
  }

  /** In every run, for every account that still exists: the ban table tracks its full
      history, its block row mirrors its bans, and the pruned account-ban table counts
      like the full record. */
  lemma RunIsGood(c: Config, users: set<UserID>, rs: seq<Request>, user: UserID, now: nat)
    requires c.policy.Enabled() && PruneSafe(c.policy) && Ordered(rs) && Until(rs, now)
    requires user in Run(c, users, rs).db.users
    ensures Good(c, Run(c, users, rs), user, now)
  {
    RunPlays(c, users, rs, now);
    PlayTracks(c.policy, Run(c, users, rs).calls, AccountKey(user), now);
    RunBlocks(c, users, rs, user, now);
    RunCounts(c, users, rs, user, now);
  }

  /** The account block, the ban row and the full history always agree. */
  lemma BlockAgreesWithBan(c: Config, users: set<UserID>, rs: seq<Request>, user: UserID, now: nat)
    requires c.policy.Enabled() && PruneSafe(c.policy) && Ordered(rs) && Until(rs, now)
    requires user in Run(c, users, rs).db.users
    ensures var w := Run(c, users, rs);
      var key := AccountKey(user);
      && (user in w.db.blocks && w.db.blocks[user] > now <==> BanRunning(Play(c.policy, w.calls).1, key, now))
      && (key in w.db.bans && w.db.bans[key].until > now <==> BanRunning(Play(c.policy, w.calls).1, key, now))
  {
    RunIsGood(c, users, rs, user, now);
    var w := Run(c, users, rs);
    LadderRefinesHistory(c.policy, w.calls, AccountKey(user), now);
    PlayTracks(c.policy, w.calls, AccountKey(user), now);
    RunningInLog(Play(c.policy, w.calls).1, AccountKey(user), now);
  }

  // The last request of a run has made a top-level ban of the account's key.
  ghost predicate MakesTop(c: Config, users: set<UserID>, rs: seq<Request>, user: UserID)
    requires c.policy.Enabled() && rs != []
  {
    var before, after := History(c, Run(c, users, rs[..|rs| - 1]), user), History(c, Run(c, users, rs), user);
    |after| > |before| && IsTop(c.policy, after[|after| - 1])
  }

  // The times of the account's own requests that made a top-level ban and after which the
  // cleanup succeeded.
  ghost function CleanedTops(c: Config, users: set<UserID>, rs: seq<Request>, user: UserID): seq<nat>
    requires c.policy.Enabled()
  {
    if rs == [] then []
    else
      var r := rs[|rs| - 1];
      CleanedTops(c, users, rs[..|rs| - 1], user) +
      (if IsOwn(r, user) && r.cleaned && MakesTop(c, users, rs, user) then [r.now] else [])
  }

  function RecordTimes(tops: seq<AccountBan>, user: UserID): seq<nat> {
    if tops == [] then []
    else
      var last := tops[|tops| - 1];
      RecordTimes(tops[..|tops| - 1], user) + (if last.user == user then [last.createdAt] else [])
  }

  // When an account's own violation is recorded as an account ban.
  lemma OwnRecordedIff(c: Config, w: World, r: Request, user: UserID)
    requires c.policy.Enabled() && user in w.db.users && IsOwn(r, user)
    ensures var own := OwnHits(c, w, user, r.now);
      Apply(c, w.db, r).1.Recorded? <==> r.cleaned && own != [] && IsTop(c.policy, own[0])
  {
    OwnIsEnforce(c, w.db, r, user);
    LevelWithinSteps(c.policy, w.db.bans, AccountKey(user), r.now);
  }

  /** A request is recorded as an account ban if and only if it is an own violation of an
      account that exists, has just made a top-level ban in the account's history, and the
      cleanup has succeeded. */
  lemma RecordedIff(c: Config, users: set<UserID>, rs: seq<Request>, r: Request, user: UserID)
    requires c.policy.Enabled() && Ordered(rs + [r]) && IsOwn(r, user)
    ensures Apply(c, Run(c, users, rs).db, r).1.Recorded? <==> r.cleaned && MakesTop(c, users, rs + [r], user)
  {
    assert (rs + [r])[..|rs|] == rs && (rs + [r])[|rs|] == r;
    Earlier(rs + [r]);
    var w := Run(c, users, rs);
    RunPlays(c, users, rs, r.now);
    if user in w.db.users {
      OwnPlays(c, w, r, user);
      OwnRecordedIff(c, w, r, user);
    } else {
      assert CallsOf(w.db, r) == [];
      assert w.calls + [] == w.calls;
    }
  }

  /** Over every run, the account bans ever recorded for an account are exactly its
      top-level bans after which the cleanup succeeded, in order. */
  lemma {:induction false} RecordsAreCleanedTops(c: Config, users: set<UserID>, rs: seq<Request>, user: UserID)
    requires c.policy.Enabled() && Ordered(rs)
    ensures RecordTimes(Run(c, users, rs).tops, user) == CleanedTops(c, users, rs, user)
  {
    if rs != [] {
      var n := |rs| - 1;
      var w, r := Run(c, users, rs[..n]), rs[n];
      assert rs[..n] + [r] == rs;
      RecordsAreCleanedTops(c, users, rs[..n], user);
      assert forall u: UserID :: (w.tops + [AccountBan(u, r.now)])[..|w.tops|] == w.tops;
      if IsOwn(r, user) {
        RecordedIff(c, users, rs[..n], r, user);
      }
    }
  }

  lemma RecordIsExact(c: Config, w: World, r: Request, user: UserID)
    requires CountMirrors(w.db.accountBans, w.tops, user, r.now - c.window) && IsOwn(r, user)
    requires Apply(c, w.db, r).1.Recorded?
    ensures Apply(c, w.db, r).1.count == CountSince(Advance(c, w, r).tops, user, r.now - c.window) > 0
  {
    RecordedShape(c, w, r, user);
    MirrorsAfterRecord(w.db.accountBans, w.tops, user, user, r.now, c.window);
    CountAppend(w.tops, AccountBan(user, r.now), user, r.now - c.window);
  }

  // The recorded bans of `user` from index `first` on are enough, recent and far apart.
  ghost predicate Backed(c: Config, tops: seq<AccountBan>, user: UserID, first: nat, now: nat)
    requires c.policy.Enabled()
  {
    var count := CountSince(tops, user, now - c.window);
    && count > 0
    && first < |tops| && tops[first].user == user && tops[first].createdAt >= now - c.window
    && now >= tops[first].createdAt + Times(count - 1, TopGap(c.policy))
  }

  lemma LastCounted(c: Config, tops: seq<AccountBan>, user: UserID, now: nat) returns (first: nat)
    requires c.policy.Enabled() && SpacedBy(tops + [AccountBan(user, now)], user, TopGap(c.policy))
    ensures Backed(c, tops + [AccountBan(user, now)], user, first, now)
  {
    var all := tops + [AccountBan(user, now)];
    CountAppend(tops, AccountBan(user, now), user, now - c.window);
    var last;
    first, last := SpacedCount(all, user, now - c.window, TopGap(c.policy));
    assert all[|tops|] == AccountBan(user, now);
  }

  /** Account deletion is rare by construction. When a request records an account ban,
      its count is the one of the full record; the account is deleted exactly when that
      reaches `deletionCount`; every recorded ban is a top-level ban of the account's key;
      and from the first one counted to now at least `count - 1` times their least distance
      has passed, which is the sum of all steps where pruning is unobservable. */
  lemma DeletionIsRare(c: Config, users: set<UserID>, rs: seq<Request>, r: Request, user: UserID) returns (first: nat)
    requires TopForgets(c.policy) && Ordered(rs + [r]) && IsOwn(r, user)
    requires Apply(c, Run(c, users, rs).db, r).1.Recorded?
    ensures var w := Run(c, users, rs + [r]);
      var count := Apply(c, Run(c, users, rs).db, r).1.count;
      && (user !in w.db.users <==> count >= c.deletionCount && r.closed)
      && count == CountSince(w.tops, user, r.now - c.window)
      && Backed(c, w.tops, user, first, r.now)
      && TopsAreBans(c.policy, w.tops, user, History(c, w, user))
  {
    assert (rs + [r])[..|rs|] == rs && (rs + [r])[|rs|] == r;
    Earlier(rs + [r]);
    var w := Run(c, users, rs);
    RunPlays(c, users, rs, r.now);
    RunCounts(c, users, rs, user, r.now);
    RunTops(c, users, rs, user, r.now);
    RecordedShape(c, w, r, user);
    OwnTops(c, w, r, user);
    RecordIsExact(c, w, r, user);
    first := LastCounted(c, w.tops, user, r.now);
  }

  /** A count that suffices for deletion takes `deletionCount - 1` times the least distance
      of two top-level bans since its first ban. */
  lemma BackedTakesLong(c: Config, tops: seq<AccountBan>, user: UserID, first: nat, now: nat)
    requires c.policy.Enabled() && Backed(c, tops, user, first, now)
    requires CountSince(tops, user, now - c.window) >= c.deletionCount > 0
    ensures first < |tops| && tops[first].user == user
    ensures now >= tops[first].createdAt + Times(c.deletionCount - 1, TopGap(c.policy))
  {
    TimesMonotone(c.deletionCount - 1, CountSince(tops, user, now - c.window) - 1, TopGap(c.policy));
  }

  const DEFAULT_CONFIG := Config(DEFAULT_POLICY, 2592000, 5)

  /** Under the shipped configuration that is 347080 seconds, more than four days. */
  lemma DefaultDeletion()
    ensures TopForgets(DEFAULT_CONFIG.policy) && PruneSafe(DEFAULT_CONFIG.policy)
    ensures Times(DEFAULT_CONFIG.deletionCount - 1, TopGap(DEFAULT_POLICY)) == 347080
  {
    DefaultPolicy();
    FaithfulIffPruneSafe(DEFAULT_POLICY);
    TimesIsProduct(4, 86770);
  }
}
