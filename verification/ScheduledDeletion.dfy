/** The durable deletion of all attachments of a user. A request waits out a grace period
    and is then carried out in small effects: remove each file, delete the messages in one
    transaction, announce each deletion, drop the request. Any of these can fail, which
    ends the attempt; the request is then still there and a later attempt starts anew. */
module ScheduledDeletion {
  import opened Wrappers

  type ID = string
  type Path = string

  const GRACE: int := 300

  datatype Message = Message(group: ID, author: ID)

  // A row of `attachments`.
  datatype Row = Row(message: ID, group: ID, owner: ID, path: Path)

  datatype Request = Request(id: ID, createdAt: int, executeAt: int)

  // The files on disk, the messages, the attachment rows, the requests by user, and the
  // deletions announced so far, as group and message.
  datatype World = World(
    files: set<Path>, messages: map<ID, Message>, rows: map<ID, Row>, requests: map<ID, Request>, announced: seq<(ID, ID)>)

  // What is left to do in the loop that an attempt is in.
  datatype Phase = Waiting | Removing(paths: seq<Path>) | Announcing(items: seq<(ID, ID)>)

  datatype System = System(world: World, phase: Phase)

  // The effects of an attempt and its failure, and what other requests do meanwhile. A
  // listing has the user's rows in whatever order the table yields them.
  datatype Event =
    | Start(listing: seq<ID>)
    | RemoveNext
    | DeleteAll(listing: seq<ID>)
    | AnnounceNext
    | Finish
    | Fail
    | Post(message: ID, group: ID, author: ID, added: map<ID, Row>)
    | Withdraw(message: ID)

  predicate Owns(w: World, user: ID, a: ID) {
    a in w.rows && w.rows[a].owner == user
  }

  function Paths(w: World, user: ID): set<Path> {
    set a | a in w.rows && w.rows[a].owner == user :: w.rows[a].path
  }

  function Messages(w: World, user: ID): set<ID> {
    set a | a in w.rows && w.rows[a].owner == user :: w.rows[a].message
  }

  ghost predicate Lists(w: World, user: ID, listing: seq<ID>) {
    && (forall i :: 0 <= i < |listing| ==> Owns(w, user, listing[i]))
    && (forall a :: Owns(w, user, a) ==> a in listing)
    && forall i, j :: 0 <= i < j < |listing| ==> listing[i] != listing[j]
  }

  predicate Known(w: World, listing: seq<ID>) {
    forall i :: 0 <= i < |listing| ==> listing[i] in w.rows
  }

  function PathsOf(w: World, listing: seq<ID>): (r: seq<Path>)
    requires Known(w, listing)
    ensures |r| == |listing| && forall i :: 0 <= i < |r| ==> r[i] == w.rows[listing[i]].path
  {
    seq(|listing|, i requires 0 <= i < |listing| => w.rows[listing[i]].path)
  }

  function ItemsOf(w: World, listing: seq<ID>): (r: seq<(ID, ID)>)
    requires Known(w, listing)
    ensures |r| == |listing| && forall i :: 0 <= i < |r| ==> r[i] == (w.rows[listing[i]].group, w.rows[listing[i]].message)
  {
    seq(|listing|, i requires 0 <= i < |listing| => (w.rows[listing[i]].group, w.rows[listing[i]].message))
  }

  // Deleting messages takes their attachment rows along.
  function WithoutMessages(w: World, gone: set<ID>): World {
    w.(messages := w.messages - gone, rows := map a | a in w.rows && w.rows[a].message !in gone :: w.rows[a])
  }

  function Dropped(requests: map<ID, Request>, id: ID): map<ID, Request> {
    map u | u in requests && requests[u].id != id :: requests[u]
  }

  function Posted(w: World, message: ID, group: ID, author: ID, added: map<ID, Row>): World {
    w.(messages := w.messages[message := Message(group, author)], rows := w.rows + added,
       files := w.files + set a | a in added :: added[a].path)
  }

  // One step while the attachments of `user` are being deleted for request `id`. What is
  // not possible in a phase changes nothing.
  function Step(s: System, user: ID, id: ID, e: Event): System {
    var w := s.world;
    match e
    case Start(listing) => if s.phase.Waiting? && Known(w, listing) then System(w, Removing(PathsOf(w, listing))) else s
    case RemoveNext =>
      if s.phase.Removing? && s.phase.paths != []
      then System(w.(files := w.files - {s.phase.paths[0]}), Removing(s.phase.paths[1..])) else s
    case DeleteAll(listing) =>
      if s.phase.Removing? && s.phase.paths == [] && Known(w, listing)
      then System(WithoutMessages(w, Messages(w, user)), Announcing(ItemsOf(w, listing))) else s
    case AnnounceNext =>
      if s.phase.Announcing? && s.phase.items != []
      then System(w.(announced := w.announced + [s.phase.items[0]]), Announcing(s.phase.items[1..])) else s
    case Finish =>
      if s.phase.Announcing? && s.phase.items == []
      then System(w.(requests := Dropped(w.requests, id)), Waiting) else s
    case Fail => System(w, Waiting)
    case Post(message, group, author, added) => System(Posted(w, message, group, author, added), s.phase)
    case Withdraw(message) => System(WithoutMessages(w, {message}), s.phase)
  }

  function After(s: System, user: ID, id: ID, events: seq<Event>): System {
    if events == [] then s
    else Step(After(s, user, id, events[..|events| - 1]), user, id, events[|events| - 1])
  }

  // ----- The service -----

  // An attempt without failure on `k` rows: the listing, `k` removals, the transaction,
  // `k` announcements, the end. After `n` of these it may fail.
  function Length(k: nat): nat {
    2 * k + 3
  }

  function Nth(listing: seq<ID>, n: nat): Event {
    if n == 0 then Start(listing)
    else if n <= |listing| then RemoveNext
    else if n == |listing| + 1 then DeleteAll(listing)
    else if n <= 2 * |listing| + 1 then AnnounceNext
    else Finish
  }

  // The system when an attempt on world `w` has made `n` steps.
  function Attempt(w: World, user: ID, id: ID, listing: seq<ID>, n: nat): System {
    if n == 0 then System(w, Waiting) else Step(Attempt(w, user, id, listing, n - 1), user, id, Nth(listing, n - 1))
  }

  lemma AttemptNext(w: World, user: ID, id: ID, listing: seq<ID>, n: nat)
    ensures Attempt(w, user, id, listing, n + 1) == Step(Attempt(w, user, id, listing, n), user, id, Nth(listing, n))
  {
  }

  class Service {
    var files: set<Path>
    var messages: map<ID, Message>
    var rows: map<ID, Row>
    var requests: map<ID, Request>
    var announced: seq<(ID, ID)>

    function Contents(): World
      reads this
    {
      World(files, messages, rows, requests, announced)
    }

    // A second request changes nothing and gets the first one.
    method ScheduleDeleteAll(user: ID, id: ID, now: int) returns (request: Request)
      modifies this`requests
      ensures requests == if user in old(requests) then old(requests) else old(requests)[user := Request(id, now, now + GRACE)]
      ensures request == requests[user] && requests == Asked(old(requests), Schedule(user, id, now))
    {
      if user !in requests {
        requests := requests[user := Request(id, now, now + GRACE)];
      }
      return requests[user];
    }

    method CancelDeleteAll(user: ID) returns (found: bool)
      modifies this`requests
      ensures found == (user in old(requests)) && requests == old(requests) - {user}
      ensures requests == Asked(old(requests), Cancel(user))
    {
      found := user in requests;
      requests := requests - {user};
    }

    // `lucky` is the number of effects that succeed before one fails.
    method RunDelete(user: ID, id: ID, lucky: nat) returns (ok: bool, ghost listing: seq<ID>)
      modifies this
      ensures Lists(old(Contents()), user, listing)
      ensures ok == (Length(|listing|) <= lucky + 1)
      ensures Contents() == Attempt(old(Contents()), user, id, listing, if ok then Length(|listing|) else lucky + 1).world
    {
      var ids := ListRows(user);
      listing := ids;
      ghost var was := Contents();
      StartedAttempt(was, user, id, ids);
      var removed := RemoveFiles(user, id, ids, lucky);
      if !removed || |ids| == lucky {
        return false, listing;
      }
      Transacted(was, user, id, ids, Contents());
      var items := DeleteUserAttachmentMessages(user, ids);
      ok := AnnounceAndDrop(user, id, ids, items, lucky, was);
    }

    // The attempt from the transaction on.
    method AnnounceAndDrop(user: ID, id: ID, listing: seq<ID>, items: seq<(ID, ID)>, lucky: nat, ghost was: World) returns (ok: bool)
      requires |items| == |listing| < lucky
      requires Attempt(was, user, id, listing, |listing| + 2) == System(Contents(), Announcing(items))
      modifies this`announced, this`requests
      ensures ok == (Length(|listing|) <= lucky + 1)
      ensures Contents() == Attempt(was, user, id, listing, if ok then Length(|listing|) else lucky + 1).world
    {
      var told := AnnounceAll(user, id, listing, items, lucky, was);
      if !told || 2 * |listing| + 1 == lucky {
        return false;
      }
      Finished(was, user, id, listing, Contents());
      DropDeleteRequest(id);
      return true;
    }

    // Carries out at most `limit` requests whose time has come, the earliest first. Those
    // of users in `luck` may fail; a failure leaves that request for later and does not
    // keep the others waiting.
    method RunDueDeletes(now: int, limit: int, luck: map<ID, nat>) returns (due: seq<ID>)
      requires DistinctIds(requests)
      modifies this
      ensures DueBatch(old(requests), now, limit, due)
      ensures forall u :: u in due ==> u in old(requests) && old(requests)[u].executeAt <= now
      ensures forall u :: u in old(requests) && u !in due && old(requests)[u].executeAt <= now ==>
        |due| == if limit < 1 then 100 else limit
      ensures forall u :: u in requests ==> u in old(requests) && requests[u] == old(requests)[u]
      ensures forall u :: u in old(requests) && u !in due ==> u in requests
      ensures forall u :: u in due && u !in luck ==> u !in requests
      ensures forall u, a :: u in old(requests) && u !in requests ==> !Owns(Contents(), u, a)
    {
      due := ListDue(now, limit);
      CarryOut(due, luck);
    }

    method CarryOut(due: seq<ID>, luck: map<ID, nat>)
      requires DistinctIds(requests) && forall u :: u in due ==> u in requests
      requires forall i, j :: 0 <= i < j < |due| ==> due[i] != due[j]
      modifies this
      ensures forall u :: u in requests ==> u in old(requests) && requests[u] == old(requests)[u]
      ensures forall u :: u in old(requests) && u !in due ==> u in requests
      ensures forall u :: u in due && u !in luck ==> u !in requests
      ensures forall u, a :: u in old(requests) && u !in requests ==> !Owns(Contents(), u, a)
    {
      ghost var gone := {};
      for i := 0 to |due|
        invariant forall u :: u in gone ==> u in due
        invariant forall j :: i <= j < |due| ==> due[j] !in gone
        invariant forall j :: 0 <= j < i && due[j] !in luck ==> due[j] in gone
        invariant requests == Others(old(requests), gone)
        invariant forall u, a :: u in gone ==> !Owns(Contents(), u, a)
      {
        var user := due[i];
        assert user in due;
        ghost var was := Contents();
        var ok := RunRequest(user, if user in luck then Some(luck[user]) else None);
        assert forall u, a :: Owns(Contents(), u, a) ==> Owns(was, u, a);
        if ok {
          DropsOne(old(requests), gone, user);
          gone := gone + {user};
        }
      }
    }

    // One attempt; without luck it does not fail.
    method RunRequest(user: ID, luck: Option<nat>) returns (ok: bool)
      requires user in requests
      modifies this
      ensures luck.None? ==> ok
      ensures requests == if ok then Dropped(old(requests), old(requests)[user].id) else old(requests)
      ensures forall a :: a in rows ==> a in old(rows) && rows[a] == old(rows)[a]
      ensures ok ==> forall a :: !Owns(Contents(), user, a)
    {
      ghost var was, listing := Contents(), [];
      var id := requests[user].id;
      var lucky := if luck.Some? then luck.value else 2 * |rows| + 2;
      ok, listing := RunDelete(user, id, lucky);
      LongEnough(was, user, listing);
      RunEffect(was, user, id, listing, if ok then Length(|listing|) else lucky + 1, Contents());
    }

    method ListDue(now: int, limit: int) returns (due: seq<ID>)
      ensures DueBatch(requests, now, limit, due)
    {
      due := [];
      var left := DueUsers(requests, now);
      while |due| < BatchSize(limit) && left != {}
        invariant left <= DueUsers(requests, now) && |due| <= BatchSize(limit)
        invariant forall u :: u in due <==> u in DueUsers(requests, now) && u !in left
        invariant |due| + |left| == |DueUsers(requests, now)|
        invariant forall i, j :: 0 <= i < j < |due| ==> due[i] != due[j]
        invariant forall i, j :: 0 <= i < j < |due| && due[i] in requests && due[j] in requests ==>
          requests[due[i]].executeAt <= requests[due[j]].executeAt
        invariant forall u, v :: u in due && v in left ==> requests[u].executeAt <= requests[v].executeAt
        decreases |left|
      {
        var first := Earliest(left);
        due := due + [first];
        left := left - {first};
      }
    }

    method Earliest(users: set<ID>) returns (user: ID)
      requires users != {} && users <= requests.Keys
      ensures user in users && forall u :: u in users ==> requests[user].executeAt <= requests[u].executeAt
    {
      user :| user in users;
      var left := users - {user};
      while left != {}
        invariant left <= users && user in users
        invariant forall u :: u in users && u !in left ==> requests[user].executeAt <= requests[u].executeAt
        decreases |left|
      {
        var u :| u in left;
        if requests[u].executeAt < requests[user].executeAt {
          user := u;
        }
        left := left - {u};
      }
    }

    method ListRows(user: ID) returns (listing: seq<ID>)
      ensures Lists(Contents(), user, listing)
    {
      listing := [];
      var left := set a | a in rows && rows[a].owner == user;
      while left != {}
        invariant forall i :: 0 <= i < |listing| ==> Owns(Contents(), user, listing[i]) && listing[i] !in left
        invariant forall a :: a in left ==> Owns(Contents(), user, a)
        invariant forall a :: Owns(Contents(), user, a) ==> a in left || a in listing
        invariant forall i, j :: 0 <= i < j < |listing| ==> listing[i] != listing[j]
        decreases |left|
      {
        var a :| a in left;
        listing := listing + [a];
        left := left - {a};
      }
    }

    method RemoveFiles(user: ID, ghost id: ID, listing: seq<ID>, lucky: nat) returns (ok: bool)
      requires Known(Contents(), listing)
      requires Attempt(Contents(), user, id, listing, 1) == System(Contents(), Removing(PathsOf(Contents(), listing)))
      modifies this`files
      ensures ok == (|listing| <= lucky)
      ensures ok ==> Attempt(old(Contents()), user, id, listing, |listing| + 1) == System(Contents(), Removing([]))
      ensures !ok ==> Contents() == Attempt(old(Contents()), user, id, listing, lucky + 1).world
    {
      var paths, i := PathsOf(Contents(), listing), 0;
      assert paths[0..] == paths;
      while i < |paths|
        invariant 0 <= i <= |paths| && i <= lucky
        invariant Attempt(old(Contents()), user, id, listing, i + 1) == System(Contents(), Removing(paths[i..]))
      {
        if i == lucky {
          return false;
        }
        RemovedOne(old(Contents()), user, id, listing, i + 1, Contents(), paths[i..]);
        assert paths[i..][1..] == paths[i + 1..];
        files := files - {paths[i]};
        i := i + 1;
      }
      assert paths[i..] == [];
      return true;
    }

    method DeleteUserAttachmentMessages(user: ID, listing: seq<ID>) returns (items: seq<(ID, ID)>)
      requires Known(Contents(), listing)
      modifies this`messages, this`rows
      ensures Contents() == WithoutMessages(old(Contents()), Messages(old(Contents()), user))
      ensures items == ItemsOf(old(Contents()), listing)
    {
      items := [];
      for i := 0 to |listing|
        invariant items == ItemsOf(Contents(), listing)[..i]
      {
        items := items + [(rows[listing[i]].group, rows[listing[i]].message)];
      }
      var gone := set a | a in rows && rows[a].owner == user :: rows[a].message;
      messages := messages - gone;
      rows := map a | a in rows && rows[a].message !in gone :: rows[a];
    }

    method AnnounceAll(user: ID, ghost id: ID, listing: seq<ID>, items: seq<(ID, ID)>, lucky: nat, ghost was: World) returns (ok: bool)
      requires |items| == |listing| < lucky
      requires Attempt(was, user, id, listing, |listing| + 2) == System(Contents(), Announcing(items))
      modifies this`announced
      ensures ok == (2 * |listing| + 1 <= lucky)
      ensures ok ==> Attempt(was, user, id, listing, 2 * |listing| + 2) == System(Contents(), Announcing([]))
      ensures !ok ==> Contents() == Attempt(was, user, id, listing, lucky + 1).world
    {
      var k, i := |listing|, 0;
      assert items[0..] == items;
      while i < k
        invariant 0 <= i <= k && k + 1 + i <= lucky
        invariant Attempt(was, user, id, listing, k + 2 + i) == System(Contents(), Announcing(items[i..]))
      {
        if k + 1 + i == lucky {
          return false;
        }
        AnnouncedOne(was, user, id, listing, k + 2 + i, Contents(), items[i..]);
        assert items[i..][1..] == items[i + 1..];
        announced := announced + [items[i]];
        i := i + 1;
      }
      assert items[i..] == [];
      return true;
    }

    method DropDeleteRequest(id: ID)
      modifies this`requests
      ensures requests == Dropped(old(requests), id)
    {
      requests := map u | u in requests && requests[u].id != id :: requests[u];
    }
  }

  lemma StartedAttempt(w: World, user: ID, id: ID, listing: seq<ID>)
    requires Known(w, listing)
    ensures Attempt(w, user, id, listing, 1) == System(w, Removing(PathsOf(w, listing)))
  {
    AttemptNext(w, user, id, listing, 0);
  }

  lemma RemovedOne(w: World, user: ID, id: ID, listing: seq<ID>, n: nat, v: World, paths: seq<Path>)
    requires Attempt(w, user, id, listing, n) == System(v, Removing(paths)) && paths != [] && 0 < n <= |listing|
    ensures Attempt(w, user, id, listing, n + 1) == System(v.(files := v.files - {paths[0]}), Removing(paths[1..]))
  {
    AttemptNext(w, user, id, listing, n);
  }

  lemma AnnouncedOne(w: World, user: ID, id: ID, listing: seq<ID>, n: nat, v: World, items: seq<(ID, ID)>)
    requires Attempt(w, user, id, listing, n) == System(v, Announcing(items)) && items != []
    requires |listing| + 2 <= n <= 2 * |listing| + 1
    ensures Attempt(w, user, id, listing, n + 1) == System(v.(announced := v.announced + [items[0]]), Announcing(items[1..]))
  {
    AttemptNext(w, user, id, listing, n);
  }

  lemma Transacted(w: World, user: ID, id: ID, listing: seq<ID>, v: World)
    requires Attempt(w, user, id, listing, |listing| + 1) == System(v, Removing([])) && Known(v, listing)
    ensures Attempt(w, user, id, listing, |listing| + 2)
         == System(WithoutMessages(v, Messages(v, user)), Announcing(ItemsOf(v, listing)))
  {
    AttemptNext(w, user, id, listing, |listing| + 1);
  }

  lemma Finished(w: World, user: ID, id: ID, listing: seq<ID>, v: World)
    requires Attempt(w, user, id, listing, 2 * |listing| + 2) == System(v, Announcing([]))
    ensures Attempt(w, user, id, listing, Length(|listing|)) == System(v.(requests := Dropped(v.requests, id)), Waiting)
  {
    AttemptNext(w, user, id, listing, 2 * |listing| + 2);
  }

  // ----- Attempts that fail anywhere, with other requests at any point -----

  // All of the user's files and messages are gone; the rows went with the messages.
  function Purged(w: World, user: ID): World {
    WithoutMessages(w, Messages(w, user)).(files := w.files - Paths(w, user))
  }

  // What the other requests alone make of the world.
  function Target(w: World, events: seq<Event>): World {
    if events == [] then w
    else
      var v := Target(w, events[..|events| - 1]);
      match events[|events| - 1]
      case Post(message, group, author, added) => Posted(v, message, group, author, added)
      case Withdraw(message) => WithoutMessages(v, {message})
      case _ => v
  }

  // A message with attachments of its author, in files with new names.
  ghost predicate NewPost(w: World, message: ID, group: ID, author: ID, added: map<ID, Row>) {
    && message !in w.messages && (forall a :: a in w.rows ==> w.rows[a].message != message)
    && added.Keys !! w.rows.Keys
    && (forall a :: a in added ==> added[a].message == message && added[a].group == group && added[a].owner == author)
    && (forall a, b :: a in added && b in added && a != b ==> added[a].path != added[b].path)
    && forall a, b :: a in added && b in w.rows ==> added[a].path != w.rows[b].path
  }

  // Listings are taken from the table; the user uploads nothing new meanwhile, and his
  // messages with attachments are left to the deletion. `t` is the target.
  ghost predicate Possible(t: World, s: System, user: ID, e: Event) {
    match e
    case Start(listing) => Lists(s.world, user, listing)
    case DeleteAll(listing) => Lists(s.world, user, listing)
    case Finish => s.phase != Announcing([])
    case Post(message, group, author, added) => NewPost(t, message, group, author, added) && (author == user ==> added == map[])
    case Withdraw(message) => message !in Messages(t, user)
    case _ => true
  }

  // A run of attempts of which none has finished yet.
  ghost predicate Unfinished(w: World, user: ID, id: ID, events: seq<Event>) {
    events == [] ||
    (var front, last := events[..|events| - 1], events[|events| - 1];
     && Unfinished(w, user, id, front)
     && Possible(Target(w, front), After(System(w, Waiting), user, id, front), user, last))
  }

  // Some of the user's files may be gone, nothing else.
  ghost predicate Kept(t: World, v: World, user: ID) {
    && v.rows == t.rows && v.messages == t.messages
    && v.files <= t.files && forall p :: p in t.files && p !in v.files ==> p in Paths(t, user)
  }

  ghost predicate Done(t: World, v: World, user: ID) {
    v.files == Purged(t, user).files && v.rows == Purged(t, user).rows && v.messages == Purged(t, user).messages
  }

  ghost predicate PhaseOk(t: World, s: System, user: ID) {
    match s.phase
    case Waiting => true
    case Removing(paths) =>
      && (forall p :: p in paths ==> p in Paths(t, user))
      && (forall p :: p in s.world.files && p in Paths(s.world, user) ==> p in paths)
    case Announcing(_) => Done(t, s.world, user)
  }

  ghost predicate Partway(t: World, s: System, user: ID) {
    (Kept(t, s.world, user) || Done(t, s.world, user)) && PhaseOk(t, s, user) && s.world.requests == t.requests
  }

  lemma PurgedLeavesNone(w: World, user: ID)
    ensures forall a :: !Owns(Purged(w, user), user, a)
    ensures Paths(Purged(w, user), user) == {} && Messages(Purged(w, user), user) == {}
  {
    forall a | Owns(w, user, a)
      ensures !Owns(Purged(w, user), user, a)
    {
      assert w.rows[a].message in Messages(w, user);
    }
  }

  lemma DoneLeavesNone(t: World, v: World, user: ID)
    requires Done(t, v, user)
    ensures forall a :: !Owns(v, user, a)
    ensures Paths(v, user) == {} && Messages(v, user) == {}
  {
    PurgedLeavesNone(t, user);
    assert forall a :: Owns(v, user, a) == Owns(Purged(t, user), user, a);
  }

  lemma ListedPaths(w: World, user: ID, listing: seq<ID>)
    requires Lists(w, user, listing)
    ensures forall p :: p in PathsOf(w, listing) <==> p in Paths(w, user)
  {
    forall p | p in Paths(w, user)
      ensures p in PathsOf(w, listing)
    {
      var a :| Owns(w, user, a) && w.rows[a].path == p;
      var i :| 0 <= i < |listing| && listing[i] == a;
      assert PathsOf(w, listing)[i] == p;
    }
    forall p | p in PathsOf(w, listing)
      ensures p in Paths(w, user)
    {
      var i :| 0 <= i < |listing| && PathsOf(w, listing)[i] == p;
      assert Owns(w, user, listing[i]);
    }
  }

  lemma StartStep(t: World, s: System, user: ID, id: ID, listing: seq<ID>)
    requires Partway(t, s, user) && Lists(s.world, user, listing)
    ensures Partway(t, Step(s, user, id, Start(listing)), user)
  {
    if s.phase.Waiting? {
      ListedPaths(s.world, user, listing);
      if Done(t, s.world, user) {
        DoneLeavesNone(t, s.world, user);
      } else {
        assert Paths(s.world, user) == Paths(t, user);
      }
    }
  }

  lemma RemoveStep(t: World, s: System, user: ID, id: ID)
    requires Partway(t, s, user)
    ensures Partway(t, Step(s, user, id, RemoveNext), user)
  {
    if s.phase.Removing? && s.phase.paths != [] {
      var s' := Step(s, user, id, RemoveNext);
      assert s.phase.paths[0] in s.phase.paths;
      assert forall p :: p in s.phase.paths ==> p == s.phase.paths[0] || p in s.phase.paths[1..];
      assert Paths(s'.world, user) == Paths(s.world, user);
      if Done(t, s.world, user) {
        assert s'.world.files == s.world.files;
      }
    }
  }

  lemma DeleteStep(t: World, s: System, user: ID, id: ID, listing: seq<ID>)
    requires Partway(t, s, user)
    ensures Partway(t, Step(s, user, id, DeleteAll(listing)), user)
  {
    if s.phase.Removing? && s.phase.paths == [] {
      var v := WithoutMessages(s.world, Messages(s.world, user));
      if Done(t, s.world, user) {
        DoneLeavesNone(t, s.world, user);
        assert v.rows == s.world.rows && v.messages == s.world.messages;
      } else {
        assert Paths(s.world, user) == Paths(t, user) && Messages(s.world, user) == Messages(t, user);
        assert v.files == t.files - Paths(t, user);
      }
    }
  }

  lemma SameOwned(v: World, w: World, user: ID)
    requires forall a :: Owns(v, user, a) <==> Owns(w, user, a)
    requires forall a :: Owns(w, user, a) ==> a in v.rows && v.rows[a] == w.rows[a]
    ensures Messages(v, user) == Messages(w, user) && Paths(v, user) == Paths(w, user)
  {
    forall a | Owns(w, user, a)
      ensures w.rows[a].message in Messages(v, user) && w.rows[a].path in Paths(v, user)
      ensures v.rows[a].message in Messages(w, user) && v.rows[a].path in Paths(w, user)
    {
      assert Owns(v, user, a);
    }
  }

  lemma PostKeepsOwned(t: World, user: ID, message: ID, group: ID, author: ID, added: map<ID, Row>)
    requires NewPost(t, message, group, author, added) && (author == user ==> added == map[])
    ensures var p := Posted(t, message, group, author, added);
      && Messages(p, user) == Messages(t, user) && Paths(p, user) == Paths(t, user) && message !in Messages(t, user)
      && forall a :: Owns(p, user, a) <==> Owns(t, user, a)
  {
    var p := Posted(t, message, group, author, added);
    assert forall a :: a in p.rows ==> p.rows[a] == if a in added then added[a] else t.rows[a];
    SameOwned(p, t, user);
  }

  lemma PostFiles(t: World, user: ID, message: ID, group: ID, author: ID, added: map<ID, Row>)
    requires NewPost(t, message, group, author, added)
    ensures forall a :: a in added ==> added[a].path !in Paths(t, user)
  {
  }

  lemma PostedRows(t: World, gone: set<ID>, message: ID, added: map<ID, Row>)
    requires message !in gone && added.Keys !! t.rows.Keys && forall a :: a in added ==> added[a].message == message
    ensures WithoutMessages(t.(rows := t.rows + added), gone).rows == WithoutMessages(t, gone).rows + added
  {
  }

  lemma DonePosted(t: World, v: World, user: ID, message: ID, group: ID, author: ID, added: map<ID, Row>)
    requires Done(t, v, user) && NewPost(t, message, group, author, added) && (author == user ==> added == map[])
    ensures Done(Posted(t, message, group, author, added), Posted(v, message, group, author, added), user)
  {
    PostKeepsOwned(t, user, message, group, author, added);
    PostFiles(t, user, message, group, author, added);
    PostedRows(t, Messages(t, user), message, added);
    PostedMessages(t, Messages(t, user), message, Message(group, author));
    PostedFiles(t, user, added);
  }

  lemma PostedMessages(t: World, gone: set<ID>, message: ID, m: Message)
    requires message !in gone
    ensures t.messages[message := m] - gone == (t.messages - gone)[message := m]
  {
  }

  lemma PostedFiles(t: World, user: ID, added: map<ID, Row>)
    requires forall a :: a in added ==> added[a].path !in Paths(t, user)
    ensures var named := set a | a in added :: added[a].path;
      t.files + named - Paths(t, user) == t.files - Paths(t, user) + named
  {
  }

  lemma KeptPosted(t: World, v: World, user: ID, message: ID, group: ID, author: ID, added: map<ID, Row>)
    requires Kept(t, v, user) && NewPost(t, message, group, author, added) && (author == user ==> added == map[])
    ensures Kept(Posted(t, message, group, author, added), Posted(v, message, group, author, added), user)
  {
    PostKeepsOwned(t, user, message, group, author, added);
  }

  // New files keep the list of files to remove complete.
  lemma PostedPhase(t: World, s: System, user: ID, message: ID, group: ID, author: ID, added: map<ID, Row>)
    requires Kept(t, s.world, user) && PhaseOk(t, s, user) && s.phase.Removing?
    requires NewPost(t, message, group, author, added) && (author == user ==> added == map[])
    ensures PhaseOk(Posted(t, message, group, author, added), System(Posted(s.world, message, group, author, added), s.phase), user)
  {
    PostKeepsOwned(t, user, message, group, author, added);
    PostKeepsOwned(s.world, user, message, group, author, added);
    PostFiles(t, user, message, group, author, added);
    SameOwned(s.world, t, user);
  }

  // Once the user's data is gone, what others do does not disturb an attempt.
  lemma DonePhase(t: World, t': World, s: System, v': World, user: ID)
    requires PhaseOk(t, s, user) && Done(t', v', user) && Paths(t, user) <= Paths(t', user)
    ensures PhaseOk(t', System(v', s.phase), user)
  {
    DoneLeavesNone(t', v', user);
  }

  lemma PostWhenDone(t: World, s: System, user: ID, message: ID, group: ID, author: ID, added: map<ID, Row>)
    requires Partway(t, s, user) && Done(t, s.world, user)
    requires NewPost(t, message, group, author, added) && (author == user ==> added == map[])
    ensures Partway(Posted(t, message, group, author, added), System(Posted(s.world, message, group, author, added), s.phase), user)
  {
    DonePosted(t, s.world, user, message, group, author, added);
    PostKeepsOwned(t, user, message, group, author, added);
    DonePhase(t, Posted(t, message, group, author, added), s, Posted(s.world, message, group, author, added), user);
  }

  lemma PostWhenKept(t: World, s: System, user: ID, message: ID, group: ID, author: ID, added: map<ID, Row>)
    requires Partway(t, s, user) && Kept(t, s.world, user) && !s.phase.Announcing?
    requires NewPost(t, message, group, author, added) && (author == user ==> added == map[])
    ensures Partway(Posted(t, message, group, author, added), System(Posted(s.world, message, group, author, added), s.phase), user)
  {
    KeptPosted(t, s.world, user, message, group, author, added);
    if s.phase.Removing? {
      PostedPhase(t, s, user, message, group, author, added);
    }
  }

  lemma WithdrawKeepsOwned(t: World, user: ID, message: ID)
    requires message !in Messages(t, user)
    ensures var p := WithoutMessages(t, {message});
      && Messages(p, user) == Messages(t, user) && Paths(p, user) == Paths(t, user)
      && forall a :: Owns(p, user, a) <==> Owns(t, user, a)
  {
    var p := WithoutMessages(t, {message});
    forall a | Owns(t, user, a)
      ensures Owns(p, user, a)
    {
      assert t.rows[a].message in Messages(t, user);
    }
    SameOwned(p, t, user);
  }

  lemma WithdrawPurged(t: World, gone: set<ID>, message: ID)
    requires message !in gone
    ensures WithoutMessages(WithoutMessages(t, {message}), gone).rows == WithoutMessages(WithoutMessages(t, gone), {message}).rows
    ensures WithoutMessages(WithoutMessages(t, {message}), gone).messages == WithoutMessages(WithoutMessages(t, gone), {message}).messages
  {
  }

  lemma WithdrawSame(v: World, w: World, message: ID)
    requires v.rows == w.rows && v.messages == w.messages
    ensures WithoutMessages(v, {message}).rows == WithoutMessages(w, {message}).rows
    ensures WithoutMessages(v, {message}).messages == WithoutMessages(w, {message}).messages
  {
  }

  lemma DoneWithdrawn(t: World, v: World, user: ID, message: ID)
    requires Done(t, v, user) && message !in Messages(t, user)
    ensures Done(WithoutMessages(t, {message}), WithoutMessages(v, {message}), user)
  {
    WithdrawKeepsOwned(t, user, message);
    WithdrawPurged(t, Messages(t, user), message);
    WithdrawSame(v, WithoutMessages(t, Messages(t, user)), message);
  }

  lemma KeptWithdrawn(t: World, v: World, user: ID, message: ID)
    requires Kept(t, v, user) && message !in Messages(t, user)
    ensures Kept(WithoutMessages(t, {message}), WithoutMessages(v, {message}), user)
  {
    WithdrawKeepsOwned(t, user, message);
    WithdrawSame(v, t, message);
  }

  lemma WithdrawWhenDone(t: World, s: System, user: ID, message: ID)
    requires Partway(t, s, user) && Done(t, s.world, user) && message !in Messages(t, user)
    ensures Partway(WithoutMessages(t, {message}), System(WithoutMessages(s.world, {message}), s.phase), user)
  {
    DoneWithdrawn(t, s.world, user, message);
    WithdrawKeepsOwned(t, user, message);
    DonePhase(t, WithoutMessages(t, {message}), s, WithoutMessages(s.world, {message}), user);
  }

  lemma WithdrawWhenKept(t: World, s: System, user: ID, message: ID)
    requires Partway(t, s, user) && Kept(t, s.world, user) && !s.phase.Announcing? && message !in Messages(t, user)
    ensures Partway(WithoutMessages(t, {message}), System(WithoutMessages(s.world, {message}), s.phase), user)
  {
    KeptWithdrawn(t, s.world, user, message);
    WithdrawKeepsOwned(t, user, message);
    SameOwned(s.world, t, user);
    WithdrawKeepsOwned(s.world, user, message);
  }

  lemma {:induction false} RunIsPartway(w: World, user: ID, id: ID, events: seq<Event>)
    requires Unfinished(w, user, id, events)
    ensures Partway(Target(w, events), After(System(w, Waiting), user, id, events), user)
  {
    if events != [] {
      var front, last := events[..|events| - 1], events[|events| - 1];
      RunIsPartway(w, user, id, front);
      var t, s := Target(w, front), After(System(w, Waiting), user, id, front);
      match last
      case Start(listing) => StartStep(t, s, user, id, listing);
      case RemoveNext => RemoveStep(t, s, user, id);
      case DeleteAll(listing) => DeleteStep(t, s, user, id, listing);
      case Post(message, group, author, added) =>
        if Done(t, s.world, user) {
          PostWhenDone(t, s, user, message, group, author, added);
        } else {
          PostWhenKept(t, s, user, message, group, author, added);
        }
      case Withdraw(message) =>
        if Done(t, s.world, user) {
          WithdrawWhenDone(t, s, user, message);
        } else {
          WithdrawWhenKept(t, s, user, message);
        }
      case AnnounceNext =>
      case Fail =>
      case Finish =>
    }
  }

  ghost predicate Completes(w: World, user: ID, id: ID, events: seq<Event>) {
    Unfinished(w, user, id, events) && After(System(w, Waiting), user, id, events).phase == Announcing([])
  }

  // Two worlds alike except for the announcements.
  predicate SameData(v: World, w: World) {
    v.files == w.files && v.messages == w.messages && v.rows == w.rows && v.requests == w.requests
  }

  /** Whenever an attempt finishes, after any number of attempts that failed anywhere, and
      with posts and withdrawals of others between any two effects: files, messages, rows
      and requests are those that one undisturbed deletion leaves of the world with the
      same posts and withdrawals. */
  lemma DeletionConverges(w: World, user: ID, id: ID, events: seq<Event>)
    requires Completes(w, user, id, events)
    ensures var t := Target(w, events);
      SameData(After(System(w, Waiting), user, id, events + [Finish]).world, Purged(t, user).(requests := Dropped(t.requests, id)))
  {
    RunIsPartway(w, user, id, events);
    assert (events + [Finish])[..|events|] == events;
  }

  lemma {:induction false} TargetKeepsRequests(w: World, events: seq<Event>)
    ensures Target(w, events).requests == w.requests
  {
    if events != [] {
      TargetKeepsRequests(w, events[..|events| - 1]);
    }
  }

  /** The request outlives every failure, and when an attempt can drop it, neither a row
      nor a file of the user is left. */
  lemma RequestOutlivesFailures(w: World, user: ID, id: ID, events: seq<Event>)
    requires Unfinished(w, user, id, events) && user in w.requests && w.requests[user].id == id
    ensures var s := After(System(w, Waiting), user, id, events);
      && user in s.world.requests && s.world.requests[user] == w.requests[user]
      && (s.phase == Announcing([]) ==>
            && user !in Step(s, user, id, Finish).world.requests
            && (forall a :: !Owns(s.world, user, a)) && s.world.files !! Paths(Target(w, events), user))
  {
    RunIsPartway(w, user, id, events);
    TargetKeepsRequests(w, events);
    var s := After(System(w, Waiting), user, id, events);
    if s.phase == Announcing([]) {
      DoneLeavesNone(Target(w, events), s.world, user);
    }
  }

  // ----- One attempt without disturbance -----

  function PhaseAt(w: World, listing: seq<ID>, n: nat): Phase
    requires Known(w, listing) && n <= 2 * |listing| + 2
  {
    if n == 0 then Waiting
    else if n <= |listing| + 1 then Removing(PathsOf(w, listing)[n - 1..])
    else
      Announcing(ItemsOf(w, listing)[n - |listing| - 2..])
  }

  lemma PhaseStep(w: World, s: System, user: ID, id: ID, listing: seq<ID>, n: nat)
    requires Known(w, listing) && n < 2 * |listing| + 2 && s.phase == PhaseAt(w, listing, n)
    requires n <= |listing| + 1 ==> s.world.rows == w.rows
    ensures var s' := Step(s, user, id, Nth(listing, n));
      s'.phase == PhaseAt(w, listing, n + 1) && (n <= |listing| ==> s'.world.rows == w.rows)
  {
    var k := |listing|;
    if n == 0 {
      assert PathsOf(w, listing)[0..] == PathsOf(w, listing) == PathsOf(s.world, listing);
    } else if n <= k {
      assert PathsOf(w, listing)[n - 1..][1..] == PathsOf(w, listing)[n..];
    } else if n == k + 1 {
      assert ItemsOf(w, listing)[0..] == ItemsOf(w, listing) == ItemsOf(s.world, listing);
    } else {
      assert ItemsOf(w, listing)[n - k - 2..][1..] == ItemsOf(w, listing)[n - k - 1..];
    }
  }

  ghost predicate InPhase(w: World, user: ID, id: ID, listing: seq<ID>, n: nat)
    requires Known(w, listing) && n <= 2 * |listing| + 2
  {
    var s := Attempt(w, user, id, listing, n);
    s.phase == PhaseAt(w, listing, n) && (n <= |listing| + 1 ==> s.world.rows == w.rows)
  }

  lemma NextPhase(w: World, user: ID, id: ID, listing: seq<ID>, n: nat)
    requires Known(w, listing) && n < 2 * |listing| + 2 && InPhase(w, user, id, listing, n)
    ensures InPhase(w, user, id, listing, n + 1)
  {
    PhaseStep(w, Attempt(w, user, id, listing, n), user, id, listing, n);
    AttemptNext(w, user, id, listing, n);
  }

  lemma {:induction false} AttemptPhase(w: World, user: ID, id: ID, listing: seq<ID>, n: nat)
    requires Known(w, listing) && n <= 2 * |listing| + 2
    ensures InPhase(w, user, id, listing, n)
  {
    if n > 0 {
      AttemptPhase(w, user, id, listing, n - 1);
      NextPhase(w, user, id, listing, n - 1);
    }
  }

  lemma NthIsPossible(w: World, s: System, user: ID, listing: seq<ID>, n: nat)
    requires Lists(w, user, listing) && n < 2 * |listing| + 2 && (n <= |listing| + 1 ==> s.world.rows == w.rows)
    ensures Possible(w, s, user, Nth(listing, n))
  {
    if n <= |listing| + 1 {
      assert forall a :: Owns(s.world, user, a) <==> Owns(w, user, a);
    }
  }

  lemma UnfinishedAppend(w: World, user: ID, id: ID, events: seq<Event>, e: Event)
    requires Unfinished(w, user, id, events) && Possible(Target(w, events), After(System(w, Waiting), user, id, events), user, e)
    requires !e.Post? && !e.Withdraw?
    ensures Unfinished(w, user, id, events + [e]) && Target(w, events + [e]) == Target(w, events)
    ensures After(System(w, Waiting), user, id, events + [e]) == Step(After(System(w, Waiting), user, id, events), user, id, e)
  {
    assert (events + [e])[..|events|] == events;
  }

  // A possible run without others that leads where `n` steps of an attempt lead.
  ghost predicate RunsTo(w: World, user: ID, id: ID, listing: seq<ID>, n: nat, events: seq<Event>) {
    && Unfinished(w, user, id, events) && Target(w, events) == w
    && After(System(w, Waiting), user, id, events) == Attempt(w, user, id, listing, n)
  }

  lemma RunsOn(w: World, user: ID, id: ID, listing: seq<ID>, n: nat, events: seq<Event>)
    requires Lists(w, user, listing) && n < 2 * |listing| + 2 && RunsTo(w, user, id, listing, n, events)
    ensures RunsTo(w, user, id, listing, n + 1, events + [Nth(listing, n)])
  {
    AttemptPhase(w, user, id, listing, n);
    NthIsPossible(w, Attempt(w, user, id, listing, n), user, listing, n);
    UnfinishedAppend(w, user, id, events, Nth(listing, n));
    AttemptNext(w, user, id, listing, n);
  }

  lemma AttemptIsARun(w: World, user: ID, id: ID, listing: seq<ID>, n: nat) returns (events: seq<Event>)
    requires Lists(w, user, listing) && n <= 2 * |listing| + 2
    ensures RunsTo(w, user, id, listing, n, events)
  {
    events := [];
    var i := 0;
    while i < n
      invariant 0 <= i <= n && RunsTo(w, user, id, listing, i, events)
    {
      RunsOn(w, user, id, listing, i, events);
      events, i := events + [Nth(listing, i)], i + 1;
    }
  }

  // What an attempt of the service does to the requests, and to the rows.
  lemma FailedEffect(w: World, user: ID, id: ID, listing: seq<ID>, n: nat)
    requires Lists(w, user, listing) && n < Length(|listing|)
    ensures var v := Attempt(w, user, id, listing, n).world;
      v.requests == w.requests && forall a :: a in v.rows ==> a in w.rows && v.rows[a] == w.rows[a]
  {
    var events := AttemptIsARun(w, user, id, listing, n);
    RunIsPartway(w, user, id, events);
    PartwayShrinks(w, Attempt(w, user, id, listing, n), user);
  }

  lemma PartwayShrinks(t: World, s: System, user: ID)
    requires Partway(t, s, user)
    ensures forall a :: a in s.world.rows ==> a in t.rows && s.world.rows[a] == t.rows[a]
    ensures s.phase.Announcing? ==> forall a :: !Owns(s.world, user, a)
  {
    if s.phase.Announcing? {
      DoneLeavesNone(t, s.world, user);
    }
  }

  // Just before the last effect of an attempt.
  lemma AlmostDone(w: World, user: ID, id: ID, listing: seq<ID>)
    requires Lists(w, user, listing)
    ensures var s := Attempt(w, user, id, listing, 2 * |listing| + 2);
      && s.phase == Announcing([]) && s.world.requests == w.requests && (forall a :: !Owns(s.world, user, a))
      && forall a :: a in s.world.rows ==> a in w.rows && s.world.rows[a] == w.rows[a]
  {
    var n := 2 * |listing| + 2;
    var events := AttemptIsARun(w, user, id, listing, n);
    RunIsPartway(w, user, id, events);
    AttemptPhase(w, user, id, listing, n);
    PartwayShrinks(w, Attempt(w, user, id, listing, n), user);
  }

  lemma FullEffect(w: World, user: ID, id: ID, listing: seq<ID>)
    requires Lists(w, user, listing)
    ensures var v := Attempt(w, user, id, listing, Length(|listing|)).world;
      && v.requests == Dropped(w.requests, id) && (forall a :: !Owns(v, user, a))
      && forall a :: a in v.rows ==> a in w.rows && v.rows[a] == w.rows[a]
  {
    var s := Attempt(w, user, id, listing, 2 * |listing| + 2);
    AlmostDone(w, user, id, listing);
    Finished(w, user, id, listing, s.world);
    assert forall a :: Owns(s.world.(requests := Dropped(w.requests, id)), user, a) == Owns(s.world, user, a);
  }

  lemma RunEffect(w: World, user: ID, id: ID, listing: seq<ID>, n: nat, v: World)
    requires Lists(w, user, listing) && n <= Length(|listing|) && v == Attempt(w, user, id, listing, n).world
    ensures v.requests == if n == Length(|listing|) then Dropped(w.requests, id) else w.requests
    ensures forall a :: a in v.rows ==> a in w.rows && v.rows[a] == w.rows[a]
    ensures n == Length(|listing|) ==> forall a :: !Owns(v, user, a)
  {
    if n == Length(|listing|) {
      FullEffect(w, user, id, listing);
    } else {
      FailedEffect(w, user, id, listing, n);
    }
  }

  lemma LongEnough(w: World, user: ID, listing: seq<ID>)
    requires Lists(w, user, listing)
    ensures |listing| <= |w.rows|
  {
    var all := set i | 0 <= i < |listing| :: listing[i];
    DistinctSize(listing);
    assert all <= w.rows.Keys;
    SubsetSize(all, w.rows.Keys);
    assert |w.rows.Keys| == |w.rows|;
  }

  lemma {:induction false} DistinctSize(listing: seq<ID>)
    requires forall i, j :: 0 <= i < j < |listing| ==> listing[i] != listing[j]
    ensures |set i | 0 <= i < |listing| :: listing[i]| == |listing|
  {
    if listing != [] {
      var n := |listing| - 1;
      DistinctSize(listing[..n]);
      var front := set i | 0 <= i < n :: listing[..n][i];
      assert (set i | 0 <= i < |listing| :: listing[i]) == front + {listing[n]};
    }
  }

  ghost predicate DistinctIds(requests: map<ID, Request>) {
    forall u, v :: u in requests && v in requests && u != v ==> requests[u].id != requests[v].id
  }

  function DueUsers(requests: map<ID, Request>, now: int): set<ID> {
    set u | u in requests && requests[u].executeAt <= now
  }

  function BatchSize(limit: int): (n: nat)
    ensures if limit < 1 then n == 100 else n == limit
  {
    if limit < 1 then 100 else limit
  }

  // As many due requests as the limit allows, earliest first, and none later than one left out.
  ghost predicate DueBatch(requests: map<ID, Request>, now: int, limit: int, due: seq<ID>) {
    && (forall u :: u in due ==> u in requests && requests[u].executeAt <= now)
    && |due| <= BatchSize(limit)
    && (|due| < BatchSize(limit) ==> forall u :: u in requests && requests[u].executeAt <= now ==> u in due)
    && (forall i, j :: 0 <= i < j < |due| ==> due[i] != due[j])
    && (forall i, j :: 0 <= i < j < |due| && due[i] in requests && due[j] in requests ==>
          requests[due[i]].executeAt <= requests[due[j]].executeAt)
    && forall u, v :: u in due && v in requests && v !in due ==> requests[u].executeAt <= requests[v].executeAt
  }

  function Others(requests: map<ID, Request>, gone: set<ID>): map<ID, Request> {
    map u | u in requests && u !in gone :: requests[u]
  }

  lemma DropsOne(requests: map<ID, Request>, gone: set<ID>, user: ID)
    requires DistinctIds(requests) && user in requests && user !in gone
    ensures Dropped(Others(requests, gone), requests[user].id) == Others(requests, gone + {user})
  {
  }

  // ----- The grace period -----

  // What happens to the requests: users ask and withdraw, and an attempt that is through
  // drops the request it was started for.
  datatype Ask = Schedule(user: ID, id: ID, now: int) | Cancel(user: ID) | Drop(id: ID)

  function Asked(requests: map<ID, Request>, ask: Ask): map<ID, Request> {
    match ask
    case Schedule(user, id, now) => if user in requests then requests else requests[user := Request(id, now, now + GRACE)]
    case Cancel(user) => requests - {user}
    case Drop(id) => Dropped(requests, id)
  }

  function AllAsked(asks: seq<Ask>): map<ID, Request> {
    if asks == [] then map[] else Asked(AllAsked(asks[..|asks| - 1]), asks[|asks| - 1])
  }

  // Ask `m` has made a request of `user`, which has not been withdrawn or dropped since.
  ghost predicate Stands(asks: seq<Ask>, m: nat, user: ID) {
    && m < |asks| && asks[m].Schedule? && asks[m].user == user && user !in AllAsked(asks[..m])
    && forall k :: m < k < |asks| ==> asks[k] != Cancel(user) && asks[k] != Drop(asks[m].id)
  }

  lemma {:induction false} StandingIsStored(asks: seq<Ask>, m: nat, user: ID)
    requires Stands(asks, m, user)
    ensures user in AllAsked(asks) && AllAsked(asks)[user] == Request(asks[m].id, asks[m].now, asks[m].now + 300)
  {
    var n := |asks| - 1;
    if m < n {
      assert asks[..n][..m] == asks[..m];
      assert Stands(asks[..n], m, user);
      StandingIsStored(asks[..n], m, user);
    }
  }

  lemma {:induction false} StoredStands(asks: seq<Ask>, user: ID) returns (m: nat)
    requires user in AllAsked(asks)
    ensures Stands(asks, m, user)
  {
    var n := |asks| - 1;
    if user in AllAsked(asks[..n]) {
      m := StoredStands(asks[..n], user);
      StandingIsStored(asks[..n], m, user);
      assert asks[..n][..m] == asks[..m];
    } else {
      m := n;
    }
  }

  /** The grace period is kept: whoever is listed for deletion has asked for it at least five
      minutes earlier, and has not withdrawn that request before the listing. */
  lemma ListedHasWaited(asks: seq<Ask>, now: int, limit: int, due: seq<ID>, user: ID) returns (m: nat)
    requires DueBatch(AllAsked(asks), now, limit, due) && user in due
    ensures Stands(asks, m, user) && now >= asks[m].now + 300
  {
    m := StoredStands(asks, user);
    StandingIsStored(asks, m, user);
  }

  /** And nobody waits longer: a request that has stood for five minutes is listed, unless
      the batch is full. */
  lemma WaitedIsListed(asks: seq<Ask>, now: int, limit: int, due: seq<ID>, user: ID, m: nat)
    requires DueBatch(AllAsked(asks), now, limit, due) && user !in due
    requires Stands(asks, m, user) && now >= asks[m].now + 300
    ensures |due| == if limit < 1 then 100 else limit
  {
    StandingIsStored(asks, m, user);
  }

  // ----- What belongs to others -----

  // Every attachment belongs to the author and the group of its message, and no two share a
  // file.
  ghost predicate Owned(w: World) {
    && (forall a :: a in w.rows ==>
          w.rows[a].message in w.messages && w.messages[w.rows[a].message] == Message(w.rows[a].group, w.rows[a].owner))
    && forall a, b :: a in w.rows && b in w.rows && a != b ==> w.rows[a].path != w.rows[b].path
  }

  // The steps of the whole service: whose request is being carried out, and the event.
  datatype Move = Move(user: ID, id: ID, event: Event)

  function Reach(moves: seq<Move>): System {
    if moves == [] then System(World({}, map[], map[], map[], []), Waiting)
    else
      var last := moves[|moves| - 1];
      Step(Reach(moves[..|moves| - 1]), last.user, last.id, last.event)
  }

  ghost predicate PostsAreNew(moves: seq<Move>) {
    moves == [] ||
    (var front, e := moves[..|moves| - 1], moves[|moves| - 1].event;
     && PostsAreNew(front)
     && (e.Post? ==> NewPost(Reach(front).world, e.message, e.group, e.author, e.added)))
  }

  lemma PostedIsOwned(w: World, message: ID, group: ID, author: ID, added: map<ID, Row>)
    requires Owned(w) && NewPost(w, message, group, author, added)
    ensures Owned(Posted(w, message, group, author, added))
  {
    var p := Posted(w, message, group, author, added);
    assert forall a :: a in p.rows ==> p.rows[a] == if a in added then added[a] else w.rows[a];
  }

  lemma WithoutIsOwned(w: World, gone: set<ID>)
    requires Owned(w)
    ensures Owned(WithoutMessages(w, gone))
  {
  }

  lemma StepIsOwned(s: System, m: Move)
    requires Owned(s.world)
    requires m.event.Post? ==> NewPost(s.world, m.event.message, m.event.group, m.event.author, m.event.added)
    ensures Owned(Step(s, m.user, m.id, m.event).world)
  {
    if m.event.Post? {
      PostedIsOwned(s.world, m.event.message, m.event.group, m.event.author, m.event.added);
    } else if m.event.Withdraw? {
      WithoutIsOwned(s.world, {m.event.message});
    } else if m.event.DeleteAll? {
      WithoutIsOwned(s.world, Messages(s.world, m.user));
    }
  }

  /** In every run of the service, whoever posts, withdraws and deletes, every attachment
      belongs to the author of its message. */
  lemma {:induction false} AttachmentsAreOwned(moves: seq<Move>)
    requires PostsAreNew(moves)
    ensures Owned(Reach(moves).world)
  {
    if moves != [] {
      var front, last := moves[..|moves| - 1], moves[|moves| - 1];
      AttachmentsAreOwned(front);
      StepIsOwned(Reach(front), last);
    }
  }

  lemma {:induction false} TargetIsOwned(w: World, user: ID, id: ID, events: seq<Event>)
    requires Owned(w) && Unfinished(w, user, id, events)
    ensures Owned(Target(w, events))
  {
    if events != [] {
      var front, e := events[..|events| - 1], events[|events| - 1];
      TargetIsOwned(w, user, id, front);
      if e.Post? {
        PostedIsOwned(Target(w, front), e.message, e.group, e.author, e.added);
      }
    }
  }

  // Everything of the others in `t` is in `v`.
  ghost predicate OthersIntact(t: World, v: World, user: ID) {
    && (forall a :: a in t.rows && t.rows[a].owner != user ==>
          a in v.rows && v.rows[a] == t.rows[a] && (t.rows[a].path in t.files ==> t.rows[a].path in v.files))
    && forall m :: m in t.messages && t.messages[m].author != user ==> m in v.messages && v.messages[m] == t.messages[m]
  }

  lemma PurgeSparesOthers(t: World, user: ID)
    requires Owned(t)
    ensures OthersIntact(t, Purged(t, user), user)
  {
    forall m | m in t.messages && t.messages[m].author != user
      ensures m !in Messages(t, user)
    {
      assert forall a :: Owns(t, user, a) ==> t.messages[t.rows[a].message].author == user;
    }
  }

  /** At every point of every run of the service, a deletion leaves all files, rows and
      messages of other users as the other requests alone would. */
  lemma OthersAreUntouched(moves: seq<Move>, user: ID, id: ID, events: seq<Event>)
    requires PostsAreNew(moves) && Unfinished(Reach(moves).world, user, id, events)
    ensures var w := Reach(moves).world;
      OthersIntact(Target(w, events), After(System(w, Waiting), user, id, events).world, user)
  {
    var w := Reach(moves).world;
    AttachmentsAreOwned(moves);
    TargetIsOwned(w, user, id, events);
    RunIsPartway(w, user, id, events);
    PurgeSparesOthers(Target(w, events), user);
  }

  // ----- Announcements -----

  // Some attempt failed with messages deleted that it had not announced yet.
  predicate FailsMidway(w: World, user: ID, id: ID, events: seq<Event>) {
    events != [] &&
    (var front, last := events[..|events| - 1], events[|events| - 1];
     FailsMidway(w, user, id, front) || (last.Fail? && Owes(After(System(w, Waiting), user, id, front).phase)))
  }

  predicate Owes(phase: Phase) {
    phase.Announcing? && phase.items != []
  }

  // The data is gone and `d` of the user's attachments, in the order of `listing`, have
  // been announced; the rest will be by the attempt under way, or never.
  ghost predicate ToldSome(t: World, s: System, user: ID, base: seq<(ID, ID)>, lost: bool, listing: seq<ID>, d: nat) {
    && Done(t, s.world, user) && Lists(t, user, listing) && d <= |listing|
    && s.world.announced == base + ItemsOf(t, listing)[..d]
    && if Owes(s.phase) then s.phase.items == ItemsOf(t, listing)[d..] && !lost else (lost <==> d < |listing|)
  }

  ghost predicate ToldNone(t: World, s: System, user: ID, base: seq<(ID, ID)>, lost: bool) {
    Kept(t, s.world, user) && s.world.announced == base && !lost && !s.phase.Announcing?
  }

  ghost predicate Told(t: World, s: System, user: ID, base: seq<(ID, ID)>, lost: bool) {
    ToldNone(t, s, user, base, lost) || exists listing, d: nat | d <= |listing| :: ToldSome(t, s, user, base, lost, listing, d)
  }

  lemma FirstListed(w: World, user: ID, listing: seq<ID>)
    requires Lists(w, user, listing)
    ensures listing != [] ==> Owns(w, user, listing[0])
  {
  }

  lemma OneMore(base: seq<(ID, ID)>, items: seq<(ID, ID)>, d: nat)
    requires d < |items|
    ensures items[d..][0] == items[d] && items[d..][1..] == items[d + 1..]
    ensures base + items[..d] + [items[d]] == base + items[..d + 1]
  {
    assert items[..d + 1] == items[..d] + [items[d]];
  }

  lemma ToldDelete(t: World, s: System, user: ID, id: ID, listing: seq<ID>, base: seq<(ID, ID)>, lost: bool)
    requires Partway(t, s, user) && Told(t, s, user, base, lost) && Lists(s.world, user, listing)
    ensures Told(t, Step(s, user, id, DeleteAll(listing)), user, base, lost)
  {
    var s' := Step(s, user, id, DeleteAll(listing));
    DeleteStep(t, s, user, id, listing);
    if s.phase.Removing? && s.phase.paths == [] {
      if ToldNone(t, s, user, base, lost) {
        assert ItemsOf(t, listing) == ItemsOf(s.world, listing);
        assert ItemsOf(t, listing)[0..] == ItemsOf(t, listing) && base + ItemsOf(t, listing)[..0] == base;
        assert ToldSome(t, s', user, base, lost, listing, 0);
      } else {
        var before, d: nat :| d <= |before| && ToldSome(t, s, user, base, lost, before, d);
        DoneLeavesNone(t, s.world, user);
        FirstListed(s.world, user, listing);
        assert ToldSome(t, s', user, base, lost, before, d);
      }
    }
  }

  lemma ToldAnnounce(t: World, s: System, user: ID, id: ID, base: seq<(ID, ID)>, lost: bool)
    requires Told(t, s, user, base, lost)
    ensures Told(t, Step(s, user, id, AnnounceNext), user, base, lost)
  {
    if Owes(s.phase) {
      var listing, d: nat :| d <= |listing| && ToldSome(t, s, user, base, lost, listing, d);
      ToldOneMore(t, s, user, id, base, lost, listing, d);
    }
  }

  lemma ToldOneMore(t: World, s: System, user: ID, id: ID, base: seq<(ID, ID)>, lost: bool, listing: seq<ID>, d: nat)
    requires ToldSome(t, s, user, base, lost, listing, d) && Owes(s.phase)
    ensures d < |listing| && ToldSome(t, Step(s, user, id, AnnounceNext), user, base, lost, listing, d + 1)
  {
    OneMore(base, ItemsOf(t, listing), d);
  }

  lemma ToldFail(t: World, s: System, user: ID, id: ID, base: seq<(ID, ID)>, lost: bool)
    requires Told(t, s, user, base, lost)
    ensures Told(t, Step(s, user, id, Fail), user, base, lost || Owes(s.phase))
  {
    if !ToldNone(t, s, user, base, lost) {
      var listing, d: nat :| d <= |listing| && ToldSome(t, s, user, base, lost, listing, d);
      assert Owes(s.phase) ==> |ItemsOf(t, listing)[d..]| > 0;
      assert ToldSome(t, Step(s, user, id, Fail), user, base, lost || Owes(s.phase), listing, d);
    }
  }

  // The removals, and the start of an attempt, announce nothing.
  lemma ToldRemove(t: World, s: System, user: ID, id: ID, e: Event, base: seq<(ID, ID)>, lost: bool)
    requires Partway(t, s, user) && Told(t, s, user, base, lost) && Possible(t, s, user, e) && (e.Start? || e.RemoveNext?)
    ensures Told(t, Step(s, user, id, e), user, base, lost)
  {
    var s' := Step(s, user, id, e);
    if e.Start? {
      StartStep(t, s, user, id, e.listing);
    } else {
      RemoveStep(t, s, user, id);
    }
    if ToldNone(t, s, user, base, lost) {
      if s' != s && e.RemoveNext? {
        assert s.phase.paths[0] in s.phase.paths;
      }
      assert ToldNone(t, s', user, base, lost);
    } else {
      var listing, d: nat :| d <= |listing| && ToldSome(t, s, user, base, lost, listing, d);
      if s' != s && e.RemoveNext? {
        assert s.phase.paths[0] in s.phase.paths;
        assert s'.world.files == s.world.files;
      }
      assert ToldSome(t, s', user, base, lost, listing, d);
    }
  }

  // Other requests leave the user's rows, and so what is to be announced, alone.
  lemma ToldMeanwhile(t: World, t': World, s: System, v': World, user: ID, base: seq<(ID, ID)>, lost: bool)
    requires Told(t, s, user, base, lost) && v'.announced == s.world.announced
    requires Kept(t, s.world, user) ==> Kept(t', v', user)
    requires Done(t, s.world, user) ==> Done(t', v', user)
    requires forall a :: Owns(t, user, a) <==> Owns(t', user, a)
    requires forall a :: Owns(t, user, a) ==> a in t'.rows && t'.rows[a] == t.rows[a]
    ensures Told(t', System(v', s.phase), user, base, lost)
  {
    if !ToldNone(t, s, user, base, lost) {
      var listing, d: nat :| d <= |listing| && ToldSome(t, s, user, base, lost, listing, d);
      assert ItemsOf(t', listing) == ItemsOf(t, listing);
      assert ToldSome(t', System(v', s.phase), user, base, lost, listing, d);
    }
  }

  lemma ToldPost(t: World, s: System, user: ID, message: ID, group: ID, author: ID, added: map<ID, Row>, base: seq<(ID, ID)>, lost: bool)
    requires Told(t, s, user, base, lost) && NewPost(t, message, group, author, added) && (author == user ==> added == map[])
    ensures Told(Posted(t, message, group, author, added), System(Posted(s.world, message, group, author, added), s.phase), user, base, lost)
  {
    PostKeepsOwned(t, user, message, group, author, added);
    if Kept(t, s.world, user) {
      KeptPosted(t, s.world, user, message, group, author, added);
    }
    if Done(t, s.world, user) {
      DonePosted(t, s.world, user, message, group, author, added);
    }
    ToldMeanwhile(t, Posted(t, message, group, author, added), s, Posted(s.world, message, group, author, added), user, base, lost);
  }

  lemma ToldWithdraw(t: World, s: System, user: ID, message: ID, base: seq<(ID, ID)>, lost: bool)
    requires Told(t, s, user, base, lost) && message !in Messages(t, user)
    ensures Told(WithoutMessages(t, {message}), System(WithoutMessages(s.world, {message}), s.phase), user, base, lost)
  {
    WithdrawKeepsOwned(t, user, message);
    if Kept(t, s.world, user) {
      KeptWithdrawn(t, s.world, user, message);
    }
    if Done(t, s.world, user) {
      DoneWithdrawn(t, s.world, user, message);
    }
    ToldMeanwhile(t, WithoutMessages(t, {message}), s, WithoutMessages(s.world, {message}), user, base, lost);
  }

  lemma {:induction false} RunTold(w: World, user: ID, id: ID, events: seq<Event>)
    requires Unfinished(w, user, id, events)
    ensures Told(Target(w, events), After(System(w, Waiting), user, id, events), user, w.announced, FailsMidway(w, user, id, events))
  {
    if events != [] {
      var front, last := events[..|events| - 1], events[|events| - 1];
      RunTold(w, user, id, front);
      RunIsPartway(w, user, id, front);
      var t, s := Target(w, front), After(System(w, Waiting), user, id, front);
      var base, lost := w.announced, FailsMidway(w, user, id, front);
      match last
      case Start(_) => ToldRemove(t, s, user, id, last, base, lost);
      case RemoveNext => ToldRemove(t, s, user, id, last, base, lost);
      case DeleteAll(listing) => ToldDelete(t, s, user, id, listing, base, lost);
      case AnnounceNext => ToldAnnounce(t, s, user, id, base, lost);
      case Fail => ToldFail(t, s, user, id, base, lost);
      case Post(message, group, author, added) => ToldPost(t, s, user, message, group, author, added, base, lost);
      case Withdraw(message) => ToldWithdraw(t, s, user, message, base, lost);
      case Finish =>
    }
  }

  lemma {:induction false} Shorter(a: seq<ID>, b: seq<ID>)
    requires forall i, j :: 0 <= i < j < |a| ==> a[i] != a[j]
    requires forall x :: x in a ==> x in b
    ensures |a| <= |b|
  {
    if a != [] {
      var x := a[0];
      assert x in a;
      var k :| 0 <= k < |b| && b[k] == x;
      var rest := b[..k] + b[k + 1..];
      forall y | y in a[1..]
        ensures y in rest
      {
        var i :| 0 <= i < |a[1..]| && a[1..][i] == y;
        assert a[i + 1] == y && y != x && y in a && y in b;
        var j :| 0 <= j < |b| && b[j] == y;
        assert rest[if j < k then j else j - 1] == y;
      }
      Shorter(a[1..], rest);
    }
  }

  lemma ListingsAreEquallyLong(w: World, user: ID, a: seq<ID>, b: seq<ID>)
    requires Lists(w, user, a) && Lists(w, user, b)
    ensures |a| == |b|
  {
    forall i | 0 <= i < |a|
      ensures a[i] in b
    {
      assert Owns(w, user, a[i]);
    }
    forall i | 0 <= i < |b|
      ensures b[i] in a
    {
      assert Owns(w, user, b[i]);
    }
    Shorter(a, b);
    Shorter(b, a);
  }

  // Each attachment of the user has been announced exactly once, and nothing else.
  ghost predicate AllAnnounced(w: World, user: ID, base: seq<(ID, ID)>, announced: seq<(ID, ID)>) {
    exists listing :: Lists(w, user, listing) && announced == base + ItemsOf(w, listing)
  }

  /** When an attempt finishes, each attachment of the user has been announced exactly once
      if and only if no earlier attempt failed between the transaction and its last
      announcement: what it left unannounced is never announced. */
  lemma AllAnnouncedIff(w: World, user: ID, id: ID, events: seq<Event>)
    requires Completes(w, user, id, events)
    ensures AllAnnounced(Target(w, events), user, w.announced, After(System(w, Waiting), user, id, events).world.announced)
      <==> !FailsMidway(w, user, id, events)
  {
    RunTold(w, user, id, events);
    var t, s := Target(w, events), After(System(w, Waiting), user, id, events);
    var lost := FailsMidway(w, user, id, events);
    var listing, d: nat :| d <= |listing| && ToldSome(t, s, user, w.announced, lost, listing, d);
    if lost {
      forall other | Lists(t, user, other)
        ensures s.world.announced != w.announced + ItemsOf(t, other)
      {
        ListingsAreEquallyLong(t, user, listing, other);
      }
    } else {
      assert ItemsOf(t, listing)[..d] == ItemsOf(t, listing);
    }
  }

  lemma FailsAppend(w: World, user: ID, id: ID, events: seq<Event>, e: Event)
    ensures FailsMidway(w, user, id, events + [e])
      <==> FailsMidway(w, user, id, events) || (e.Fail? && Owes(After(System(w, Waiting), user, id, events).phase))
  {
    assert (events + [e])[..|events|] == events;
  }

  // One more step of a run without others.
  lemma OneMoreStep(w: World, user: ID, id: ID, events: seq<Event>, s: System, e: Event)
    requires Unfinished(w, user, id, events) && Target(w, events) == w && s == After(System(w, Waiting), user, id, events)
    requires Possible(w, s, user, e) && !e.Post? && !e.Withdraw?
    ensures Unfinished(w, user, id, events + [e]) && Target(w, events + [e]) == w
    ensures After(System(w, Waiting), user, id, events + [e]) == Step(s, user, id, e)
    ensures FailsMidway(w, user, id, events) || (e.Fail? && Owes(s.phase)) ==> FailsMidway(w, user, id, events + [e])
  {
    UnfinishedAppend(w, user, id, events, e);
    FailsAppend(w, user, id, events, e);
  }

  /** Announcements do get lost: for every user with an attachment there is a run that
      fails right after the transaction and completes with the next attempt. */
  lemma AnnouncementsGetLost(w: World, user: ID, id: ID, listing: seq<ID>) returns (events: seq<Event>)
    requires Lists(w, user, listing) && listing != []
    ensures Completes(w, user, id, events) && FailsMidway(w, user, id, events)
    ensures !AllAnnounced(Target(w, events), user, w.announced, After(System(w, Waiting), user, id, events).world.announced)
  {
    var n := |listing| + 2;
    events := AttemptIsARun(w, user, id, listing, n);
    AttemptPhase(w, user, id, listing, n);
    RunIsPartway(w, user, id, events);
    var s := Attempt(w, user, id, listing, n);
    assert ItemsOf(w, listing)[0..] != [] && Owes(s.phase);
    DoneLeavesNone(w, s.world, user);
    assert Lists(s.world, user, []);
    OneMoreStep(w, user, id, events, s, Fail);
    events := events + [Fail];
    var failed := System(s.world, Waiting);
    OneMoreStep(w, user, id, events, failed, Start([]));
    events := events + [Start([])];
    var started := System(s.world, Removing([]));
    assert Step(failed, user, id, Start([])) == started;
    OneMoreStep(w, user, id, events, started, DeleteAll([]));
    events := events + [DeleteAll([])];
    assert Step(started, user, id, DeleteAll([])).phase == Announcing([]);
    AllAnnouncedIff(w, user, id, events);
  }

  // ----- Uploads of the user during an attempt -----

  /** What the user uploads between the listing of an attempt and its transaction loses its
      row and its message, while the file stays on disk. */
  lemma LateUploadLeavesFile(
      w: World, user: ID, id: ID, listing: seq<ID>, message: ID, group: ID, added: map<ID, Row>, a: ID, again: seq<ID>)
    requires Lists(w, user, listing) && NewPost(w, message, group, user, added) && a in added
    requires var s := Step(Attempt(w, user, id, listing, |listing| + 1), user, id, Post(message, group, user, added));
      Known(s.world, again)
    ensures var s := Step(Attempt(w, user, id, listing, |listing| + 1), user, id, Post(message, group, user, added));
      var v := Step(s, user, id, DeleteAll(again)).world;
      a !in v.rows && message !in v.messages && added[a].path in v.files
  {
    AttemptPhase(w, user, id, listing, |listing| + 1);
    var before := Attempt(w, user, id, listing, |listing| + 1);
    assert before.phase == Removing([]);
    var s := Step(before, user, id, Post(message, group, user, added));
    assert s.world.rows[a] == added[a] && added[a].path in s.world.files;
    assert s.world.rows[a].message in Messages(s.world, user);
  }

  // The files of the user's own posts.
  function Uploads(events: seq<Event>, user: ID): set<Path> {
    if events == [] then {}
    else
      Uploads(events[..|events| - 1], user) +
      match events[|events| - 1]
      case Post(_, _, author, added) => UploadedBy(author, added, user)
      case _ => {}
  }

  function UploadedBy(author: ID, added: map<ID, Row>, user: ID): set<Path> {
    if author == user then set a | a in added :: added[a].path else {}
  }

  // What can come between the listing of an attempt and its transaction, the uploads of the
  // user included.
  ghost predicate Meanwhile(s: System, user: ID, id: ID, events: seq<Event>) {
    events == [] ||
    (var front, last := events[..|events| - 1], events[|events| - 1];
     var v := After(s, user, id, front).world;
     && Meanwhile(s, user, id, front)
     && match last
        case RemoveNext => true
        case Post(message, group, author, added) => NewPost(v, message, group, author, added)
        case Withdraw(message) => message !in Messages(v, user)
        case _ => false)
  }

  // Of the user's listed files only those in `paths` are still there; of the later ones all.
  ghost predicate Remaining(listed: set<Path>, late: set<Path>, s: System, user: ID) {
    && s.phase.Removing? && listed !! late
    && Paths(s.world, user) == listed + late && late <= s.world.files
    && (forall p :: p in s.phase.paths ==> p in listed)
    && forall p :: p in listed && p in s.world.files ==> p in s.phase.paths
  }

  lemma PostedPaths(w: World, user: ID, message: ID, group: ID, author: ID, added: map<ID, Row>)
    requires NewPost(w, message, group, author, added)
    ensures Paths(Posted(w, message, group, author, added), user) == Paths(w, user) + UploadedBy(author, added, user)
  {
    var v := Posted(w, message, group, author, added);
    forall a | a in w.rows
      ensures a in v.rows && v.rows[a] == w.rows[a]
    {
      assert a !in added;
    }
    assert forall a :: a in added ==> a in v.rows && v.rows[a] == added[a];
    assert forall a :: a in v.rows ==> a in added || a in w.rows;
  }

  lemma PostRemaining(
      listed: set<Path>, late: set<Path>, s: System, user: ID, message: ID, group: ID, author: ID, added: map<ID, Row>)
    requires Remaining(listed, late, s, user) && NewPost(s.world, message, group, author, added)
    ensures Remaining(listed, late + UploadedBy(author, added, user),
                      System(Posted(s.world, message, group, author, added), s.phase), user)
  {
    PostedPaths(s.world, user, message, group, author, added);
    PostFiles(s.world, user, message, group, author, added);
  }

  lemma WithdrawRemaining(listed: set<Path>, late: set<Path>, s: System, user: ID, message: ID)
    requires Remaining(listed, late, s, user) && message !in Messages(s.world, user)
    ensures Remaining(listed, late, System(WithoutMessages(s.world, {message}), s.phase), user)
  {
    WithdrawKeepsOwned(s.world, user, message);
  }

  lemma {:induction false} RunRemaining(w: World, user: ID, id: ID, listing: seq<ID>, events: seq<Event>)
    requires Lists(w, user, listing) && Meanwhile(System(w, Removing(PathsOf(w, listing))), user, id, events)
    ensures var s := After(System(w, Removing(PathsOf(w, listing))), user, id, events);
      Remaining(Paths(w, user), Uploads(events, user), s, user)
  {
    if events == [] {
      ListedPaths(w, user, listing);
    } else {
      var front := events[..|events| - 1];
      RunRemaining(w, user, id, listing, front);
      var s := After(System(w, Removing(PathsOf(w, listing))), user, id, front);
      match events[|events| - 1] {
        case RemoveNext =>
        case Post(message, group, author, added) =>
          PostRemaining(Paths(w, user), Uploads(front, user), s, user, message, group, author, added);
        case Withdraw(message) => WithdrawRemaining(Paths(w, user), Uploads(front, user), s, user, message);
      }
    }
  }

  /** With uploads of the user and requests of others between the effects, the transaction
      of an attempt leaves no row of the user, and of his files exactly those uploaded since
      the listing: none if and only if he has uploaded none. */
  lemma LeftBehindIff(w: World, user: ID, id: ID, listing: seq<ID>, events: seq<Event>, again: seq<ID>)
    requires Lists(w, user, listing) && Meanwhile(System(w, Removing(PathsOf(w, listing))), user, id, events)
    requires var s := After(System(w, Removing(PathsOf(w, listing))), user, id, events);
      s.phase == Removing([]) && Known(s.world, again)
    ensures var s := After(System(w, Removing(PathsOf(w, listing))), user, id, events);
      var v := Step(s, user, id, DeleteAll(again)).world;
      && (forall a :: !Owns(v, user, a))
      && v.files * Paths(s.world, user) == Uploads(events, user)
      && (v.files !! Paths(s.world, user) <==> Uploads(events, user) == {})
  {
    RunRemaining(w, user, id, listing, events);
    var s := After(System(w, Removing(PathsOf(w, listing))), user, id, events);
    assert forall a :: Owns(s.world, user, a) ==> s.world.rows[a].message in Messages(s.world, user);
  }
}
