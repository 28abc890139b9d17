/** Temporary rooms. A room that loses its last member is marked with the time, and the
    cleanup removes rooms that have been marked for long enough. The cleanup first lists
    the codes and later deletes them one by one, so any request may come in between. */
module Rooms {
  import opened Wrappers

  type ID = string
  type Code = string

  // A row of `rooms` with its rows of `room_members`, which it takes along when deleted.
  datatype Room = Room(owner: ID, createdAt: int, expiresAt: int, emptySince: Option<int>, members: set<ID>)

  datatype Tables = Tables(users: set<ID>, rooms: map<Code, Room>)

  datatype Outcome = Done | NotFound | Conflict | Full | Forbidden | Failed

  datatype Action =
    | Register(user: ID)
    | Insert(code: Code, user: ID, ttl: nat)
    | Join(code: Code, user: ID)
    | Leave(code: Code, user: ID)
    | Delete(code: Code, user: ID, terminated: bool)
    | CleanupBanned(user: ID)
    | RemoveUser(user: ID)
    | DeleteEmpty(code: Code, cutoff: int)
    | DeleteExpired(code: Code, listedAt: int)

  datatype Step = Step(now: int, action: Action)

  // ----- What each request does -----

  predicate Open(s: Tables, code: Code, now: int) {
    code in s.rooms && s.rooms[code].expiresAt > now
  }

  function InsertOutcome(s: Tables, code: Code, owner: ID): Outcome {
    if code in s.rooms || owner !in s.users then Conflict else Done
  }

  function JoinOutcome(s: Tables, code: Code, user: ID, now: int, max: nat): Outcome {
    if !Open(s, code, now) then NotFound
    else if user in s.rooms[code].members then Done
    else if |s.rooms[code].members| >= max then Full
    else if user !in s.users then Conflict
    else Done
  }

  function DeleteOutcome(s: Tables, code: Code, user: ID, now: int, terminated: bool): Outcome {
    if !Open(s, code, now) then NotFound
    else if s.rooms[code].owner != user then Forbidden
    else if !terminated then Failed
    else Done
  }

  function Left(room: Room, user: ID, now: int): Room {
    var members := room.members - {user};
    room.(members := members, emptySince := if members == {} then Some(now) else room.emptySince)
  }

  function Cleared(room: Room, user: ID, now: int): Room {
    if user in room.members then Left(room, user, now) else room
  }

  predicate EmptyBy(room: Room, cutoff: int) {
    room.emptySince.Some? && room.emptySince.value <= cutoff
  }

  function WithoutUser(rooms: map<Code, Room>, user: ID): map<Code, Room> {
    map c | c in rooms && rooms[c].owner != user :: rooms[c].(members := rooms[c].members - {user})
  }

  function Apply(s: Tables, step: Step, max: nat): Tables {
    var now := step.now;
    match step.action
    case Register(user) => s.(users := s.users + {user})
    case Insert(code, owner, ttl) =>
      if InsertOutcome(s, code, owner) != Done then s
      else s.(rooms := s.rooms[code := Room(owner, now, now + ttl, None, {owner})])
    case Join(code, user) =>
      if JoinOutcome(s, code, user, now, max) != Done then s
      else s.(rooms := s.rooms[code := s.rooms[code].(members := s.rooms[code].members + {user}, emptySince := None)])
    case Leave(code, user) =>
      if !Open(s, code, now) then s else s.(rooms := s.rooms[code := Left(s.rooms[code], user, now)])
    case Delete(code, user, terminated) =>
      if DeleteOutcome(s, code, user, now, terminated) != Done then s else s.(rooms := s.rooms - {code})
    case CleanupBanned(user) => s.(rooms := map c | c in s.rooms :: Cleared(s.rooms[c], user, now))
    case RemoveUser(user) => Tables(s.users - {user}, WithoutUser(s.rooms, user))
    case DeleteEmpty(code, cutoff) =>
      if code in s.rooms && EmptyBy(s.rooms[code], cutoff) then s.(rooms := s.rooms - {code}) else s
    case DeleteExpired(code, listedAt) =>
      if code in s.rooms && s.rooms[code].expiresAt <= listedAt then s.(rooms := s.rooms - {code}) else s
  }

  class RoomStore {
    const max: nat
    var users: set<ID>
    var rooms: map<Code, Room>

    constructor (max: nat)
      ensures Contents() == Tables({}, map[]) && this.max == max
    {
      this.max, users, rooms := max, {}, map[];
    }

    function Contents(): Tables
      reads this
    {
      Tables(users, rooms)
    }

    method InsertRoom(code: Code, owner: ID, now: int, ttl: nat) returns (r: Outcome)
      modifies this`rooms
      ensures Contents() == Apply(old(Contents()), Step(now, Insert(code, owner, ttl)), max)
      ensures r == InsertOutcome(old(Contents()), code, owner)
    {
      if code in rooms {
        return Conflict;
      }
      if owner !in users {
        return Conflict;
      }
      rooms := rooms[code := Room(owner, now, now + ttl, None, {})];
      rooms := rooms[code := rooms[code].(members := {owner})];
      return Done;
    }

    method JoinRoom(code: Code, user: ID, now: int) returns (r: Outcome)
      modifies this`rooms
      ensures Contents() == Apply(old(Contents()), Step(now, Join(code, user)), max)
      ensures r == NotFound <==> !(code in old(rooms) && old(rooms)[code].expiresAt > now)
      ensures r == Full <==> r != NotFound && user !in old(rooms)[code].members && |old(rooms)[code].members| >= max
      ensures r == Conflict <==> r != NotFound && r != Full && user !in old(rooms)[code].members && user !in users
      ensures r != Done ==> rooms == old(rooms)
      ensures r == Done ==>
        user in rooms[code].members && rooms[code].members == old(rooms)[code].members + {user} && rooms[code].emptySince.None?
    {
      if !Open(Contents(), code, now) {
        return NotFound;
      }
      if user !in rooms[code].members {
        if |rooms[code].members| >= max {
          return Full;
        }
        if user !in users {
          return Conflict;
        }
        rooms := rooms[code := rooms[code].(members := rooms[code].members + {user})];
      }
      assert rooms[code].members == old(rooms[code].members) + {user};
      rooms := rooms[code := rooms[code].(emptySince := None)];
      return Done;
    }

    method LeaveRoom(code: Code, user: ID, now: int) returns (r: Outcome)
      modifies this`rooms
      ensures Contents() == Apply(old(Contents()), Step(now, Leave(code, user)), max)
      ensures r == Done <==> code in old(rooms) && old(rooms)[code].expiresAt > now
      ensures r != Done ==> r == NotFound && rooms == old(rooms)
      ensures r == Done ==>
        && rooms[code].members == old(rooms)[code].members - {user}
        && (rooms[code].members == {} ==> rooms[code].emptySince == Some(now))
    {
      if !Open(Contents(), code, now) {
        return NotFound;
      }
      rooms := rooms[code := rooms[code].(members := rooms[code].members - {user})];
      if rooms[code].members == {} {
        rooms := rooms[code := rooms[code].(emptySince := Some(now))];
      }
      return Done;
    }

    method DeleteRoom(code: Code, user: ID, now: int, terminated: bool) returns (r: Outcome)
      modifies this`rooms
      ensures Contents() == Apply(old(Contents()), Step(now, Delete(code, user, terminated)), max)
      ensures r == NotFound <==> !(code in old(rooms) && old(rooms)[code].expiresAt > now)
      ensures r == Done <==> r != NotFound && old(rooms)[code].owner == user && terminated
      ensures r == Failed <==> r != NotFound && old(rooms)[code].owner == user && !terminated
      ensures rooms == if r == Done then old(rooms) - {code} else old(rooms)
    {
      if code !in rooms || rooms[code].expiresAt <= now {
        return NotFound;
      }
      if rooms[code].owner != user {
        return Forbidden;
      }
      if !terminated {
        return Failed;
      }
      rooms := rooms - {code};
      return Done;
    }

    // Deletes the memberships and then marks those of the rooms that are empty now.
    method CleanupBannedUser(user: ID, now: int) returns (names: set<Code>)
      modifies this`rooms
      ensures Contents() == Apply(old(Contents()), Step(now, CleanupBanned(user)), max)
      ensures forall c :: c in names <==> c in old(rooms) && user in old(rooms)[c].members
    {
      names := set c | c in rooms && user in rooms[c].members;
      rooms := map c | c in rooms :: rooms[c].(members := rooms[c].members - {user});
      rooms := map c | c in rooms ::
        if c in names && rooms[c].members == {} then rooms[c].(emptySince := Some(now)) else rooms[c];
      assert forall c :: c in old(rooms) && c !in names ==> old(rooms)[c].members - {user} == old(rooms)[c].members;
    }

    method DeleteEmptyRoom(code: Code, cutoff: int, ghost now: int)
      modifies this`rooms
      ensures Contents() == Apply(old(Contents()), Step(now, DeleteEmpty(code, cutoff)), max)
    {
      if code in rooms && EmptyBy(rooms[code], cutoff) {
        rooms := rooms - {code};
      }
    }

    method DeleteExpiredRoom(code: Code, listedAt: int, ghost now: int)
      modifies this`rooms
      ensures Contents() == Apply(old(Contents()), Step(now, DeleteExpired(code, listedAt)), max)
    {
      if code in rooms && rooms[code].expiresAt <= listedAt {
        rooms := rooms - {code};
      }
    }

    method EmptyRoomCodes(cutoff: int) returns (codes: set<Code>)
      ensures forall c :: c in codes <==> c in rooms && EmptyBy(rooms[c], cutoff)
    {
      codes := set c | c in rooms && EmptyBy(rooms[c], cutoff);
    }

    // The cleanup when nothing comes in between. Rooms whose call cannot be ended are kept.
    method DeleteEmptyRooms(now: int, grace: nat, ended: set<Code>)
      modifies this`rooms
      ensures rooms.Keys == set c | c in old(rooms) && !(c in ended && EmptyBy(old(rooms)[c], now - grace))
      ensures forall c :: c in rooms ==> rooms[c] == old(rooms)[c]
    {
      var codes := EmptyRoomCodes(now - grace);
      var left := codes;
      while left != {}
        invariant left <= codes
        invariant rooms.Keys == set c | c in old(rooms) && !(c in codes - left && c in ended)
        invariant forall c :: c in rooms ==> rooms[c] == old(rooms)[c]
        decreases |left|
      {
        var code :| code in left;
        left := left - {code};
        if code in ended {
          DeleteEmptyRoom(code, now - grace, now);
        }
      }
    }
  }

  // ----- Runs -----

  ghost predicate Ordered(steps: seq<Step>) {
    forall i, j :: 0 <= i < j < |steps| ==> steps[i].now <= steps[j].now
  }

  // The tables before step `n`.
  function State(steps: seq<Step>, n: nat, max: nat): Tables
    requires n <= |steps|
  {
    if n == 0 then Tables({}, map[]) else Apply(State(steps, n - 1, max), steps[n - 1], max)
  }

  predicate Occupied(s: Tables, code: Code) {
    code in s.rooms && s.rooms[code].members != {}
  }

  ghost predicate GoodRoom(s: Tables, room: Room, max: nat) {
    && |room.members| <= max && room.members <= s.users && room.owner in s.users
    && (room.emptySince.Some? ==> room.members == {} && room.createdAt <= room.emptySince.value)
  }

  ghost predicate Good(s: Tables, max: nat) {
    forall c :: c in s.rooms ==> GoodRoom(s, s.rooms[c], max)
  }

  // No room was made, and none was marked, after `now`.
  ghost predicate Past(s: Tables, now: int) {
    forall c :: c in s.rooms ==> s.rooms[c].createdAt <= now && (s.rooms[c].emptySince.Some? ==> s.rooms[c].emptySince.value <= now)
  }

  lemma FewerMembers(s: Tables, t: Tables, room: Room, after: Room, max: nat)
    requires GoodRoom(s, room, max) && after.members <= room.members && after.members <= t.users && room.owner in t.users
    requires after.owner == room.owner && after.createdAt == room.createdAt
    requires after.emptySince == room.emptySince || (after.members == {} && after.emptySince.Some? && room.createdAt <= after.emptySince.value)
    ensures GoodRoom(t, after, max)
  {
    SubsetSize(after.members, room.members);
  }

  lemma JoinStep(s: Tables, step: Step, max: nat, c: Code)
    requires Good(s, max) && step.action.Join? && step.action.code == c && c in s.rooms
    ensures GoodRoom(Apply(s, step, max), Apply(s, step, max).rooms[c], max)
  {
    assert GoodRoom(s, s.rooms[c], max);
  }

  lemma RoomStep(s: Tables, step: Step, max: nat, c: Code)
    requires Good(s, max) && Past(s, step.now) && max >= 1 && c in Apply(s, step, max).rooms
    ensures GoodRoom(Apply(s, step, max), Apply(s, step, max).rooms[c], max)
  {
    var t := Apply(s, step, max);
    if c in s.rooms {
      var room := s.rooms[c];
      assert GoodRoom(s, room, max);
      if step.action.Join? && step.action.code == c {
        JoinStep(s, step, max, c);
      } else {
        FewerMembers(s, t, room, t.rooms[c], max);
      }
    }
  }

  lemma PastStep(s: Tables, step: Step, max: nat, c: Code)
    requires Past(s, step.now) && c in Apply(s, step, max).rooms
    ensures var r := Apply(s, step, max).rooms[c]; r.createdAt <= step.now && (r.emptySince.Some? ==> r.emptySince.value <= step.now)
  {
  }

  lemma GoodStep(s: Tables, step: Step, max: nat)
    requires Good(s, max) && Past(s, step.now) && max >= 1
    ensures Good(Apply(s, step, max), max) && Past(Apply(s, step, max), step.now)
  {
    var t := Apply(s, step, max);
    forall c | c in t.rooms
      ensures GoodRoom(t, t.rooms[c], max)
    {
      RoomStep(s, step, max, c);
    }
    assert Past(t, step.now) by {
      forall c | c in t.rooms
        ensures t.rooms[c].createdAt <= step.now && (t.rooms[c].emptySince.Some? ==> t.rooms[c].emptySince.value <= step.now)
      {
        PastStep(s, step, max, c);
      }
    }
  }

  /** In every run no room has more than `max` members, every member and owner is a user,
      and a marked room is empty. */
  lemma {:induction false} RunIsGood(steps: seq<Step>, n: nat, max: nat)
    requires Ordered(steps) && n <= |steps| && max >= 1
    ensures Good(State(steps, n, max), max)
    ensures n > 0 ==> Past(State(steps, n, max), steps[n - 1].now)
  {
    if n > 0 {
      RunIsGood(steps, n - 1, max);
      GoodStep(State(steps, n - 1, max), steps[n - 1], max);
    }
  }

  // ----- Which rooms there are, and who is in them -----

  // The step makes the room.
  predicate MakesAt(steps: seq<Step>, i: nat, max: nat, code: Code)
    requires i < |steps|
  {
    var s := State(steps, i, max);
    steps[i].action.Insert? && steps[i].action.code == code && code !in s.rooms && steps[i].action.user in s.users
  }

  // The step removes the room: its owner deletes it and the call could be ended, its owner
  // goes, it has been marked for long enough, or it has expired.
  predicate GoesAt(steps: seq<Step>, i: nat, max: nat, code: Code)
    requires i < |steps|
  {
    var s := State(steps, i, max);
    code in s.rooms &&
    var room := s.rooms[code];
    match steps[i].action
    case Delete(c, user, terminated) => c == code && room.owner == user && terminated && steps[i].now < room.expiresAt
    case RemoveUser(user) => user == room.owner
    case DeleteEmpty(c, cutoff) => c == code && room.emptySince.Some? && room.emptySince.value <= cutoff
    case DeleteExpired(c, listedAt) => c == code && room.expiresAt <= listedAt
    case _ => false
  }

  ghost predicate RoomSince(steps: seq<Step>, m: nat, n: nat, max: nat, code: Code)
    requires n <= |steps|
  {
    m < n && MakesAt(steps, m, max, code) &&
    forall i {:trigger GoesAt(steps, i, max, code)} :: m < i < n ==> !GoesAt(steps, i, max, code)
  }

  lemma RoomStaysIff(steps: seq<Step>, n: nat, max: nat, code: Code)
    requires n < |steps|
    ensures code in State(steps, n + 1, max).rooms
      <==> MakesAt(steps, n, max, code) || (code in State(steps, n, max).rooms && !GoesAt(steps, n, max, code))
  {
  }

  /** Over every run, a room is there if and only if it was made and none of the four ways to
      remove it has come since. */
  lemma {:induction false} RoomExistsIff(steps: seq<Step>, n: nat, max: nat, code: Code)
    requires n <= |steps|
    ensures code in State(steps, n, max).rooms <==> exists m :: RoomSince(steps, m, n, max, code)
  {
    if n > 0 {
      RoomExistsIff(steps, n - 1, max, code);
      RoomStaysIff(steps, n - 1, max, code);
      if MakesAt(steps, n - 1, max, code) {
        assert RoomSince(steps, n - 1, n, max, code);
      } else if code in State(steps, n, max).rooms {
        var m :| RoomSince(steps, m, n - 1, max, code);
        assert RoomSince(steps, m, n, max, code);
      } else {
        forall m: nat
          ensures !RoomSince(steps, m, n, max, code)
        {
          assert m < n - 1 && RoomSince(steps, m, n, max, code) ==> RoomSince(steps, m, n - 1, max, code);
        }
      }
    }
  }

  /** Its owner and its times are those with which it was made. */
  lemma {:induction false} RoomIsAsMade(steps: seq<Step>, m: nat, n: nat, max: nat, code: Code)
    requires m < n <= |steps| && RoomSince(steps, m, n, max, code)
    ensures code in State(steps, n, max).rooms
    ensures var room := State(steps, n, max).rooms[code];
      && room.owner == steps[m].action.user && room.createdAt == steps[m].now
      && room.expiresAt == steps[m].now + steps[m].action.ttl
  {
    RoomStaysIff(steps, n - 1, max, code);
    if m < n - 1 {
      RoomIsAsMade(steps, m, n - 1, max, code);
    }
  }

  // The step brings the user into the room: he makes it, or joins while it is open and is
  // in already or finds a place.
  predicate EntersAt(steps: seq<Step>, i: nat, max: nat, code: Code, user: ID)
    requires i < |steps|
  {
    var s := State(steps, i, max);
    match steps[i].action
    case Insert(c, u, _) => c == code && u == user && MakesAt(steps, i, max, code)
    case Join(c, u) =>
      && c == code && u == user && code in s.rooms && steps[i].now < s.rooms[code].expiresAt
      && (user in s.rooms[code].members || (user in s.users && |s.rooms[code].members| < max))
    case _ => false
  }

  predicate ExitsAt(steps: seq<Step>, i: nat, max: nat, code: Code, user: ID)
    requires i < |steps|
  {
    var s := State(steps, i, max);
    match steps[i].action
    case Leave(c, u) => c == code && u == user && code in s.rooms && steps[i].now < s.rooms[code].expiresAt
    case CleanupBanned(u) => u == user
    case RemoveUser(u) => u == user
    case _ => false
  }

  ghost predicate MemberSince(steps: seq<Step>, m: nat, n: nat, max: nat, code: Code, user: ID)
    requires n <= |steps|
  {
    m < n && EntersAt(steps, m, max, code, user) &&
    forall i {:trigger ExitsAt(steps, i, max, code, user)} :: m < i < n ==>
      !ExitsAt(steps, i, max, code, user) && code in State(steps, i, max).rooms
  }

  predicate IsMember(steps: seq<Step>, n: nat, max: nat, code: Code, user: ID)
    requires n <= |steps|
  {
    code in State(steps, n, max).rooms && user in State(steps, n, max).rooms[code].members
  }

  lemma MemberStep(steps: seq<Step>, n: nat, max: nat, code: Code, user: ID)
    requires n < |steps| && code in State(steps, n + 1, max).rooms
    ensures IsMember(steps, n + 1, max, code, user) <==>
      EntersAt(steps, n, max, code, user) || (IsMember(steps, n, max, code, user) && !ExitsAt(steps, n, max, code, user))
  {
  }

  lemma SinceShorter(steps: seq<Step>, m: nat, n: nat, max: nat, code: Code, user: ID)
    requires 0 < n <= |steps| && MemberSince(steps, m, n, max, code, user) && !EntersAt(steps, n - 1, max, code, user)
    ensures MemberSince(steps, m, n - 1, max, code, user) && !ExitsAt(steps, n - 1, max, code, user)
  {
    assert m < n - 1;
    forall i {:trigger ExitsAt(steps, i, max, code, user)} | m < i < n - 1
      ensures !ExitsAt(steps, i, max, code, user) && code in State(steps, i, max).rooms
    {
    }
  }

  /** Over every run, the members of a room are exactly those who have entered it and have
      neither left it while it was open, nor been banned or deleted, since. */
  lemma {:induction false} MemberIff(steps: seq<Step>, n: nat, max: nat, code: Code, user: ID)
    requires n <= |steps| && code in State(steps, n, max).rooms
    ensures user in State(steps, n, max).rooms[code].members <==> exists m :: MemberSince(steps, m, n, max, code, user)
  {
    MemberStep(steps, n - 1, max, code, user);
    if EntersAt(steps, n - 1, max, code, user) {
      assert MemberSince(steps, n - 1, n, max, code, user);
    } else if code in State(steps, n - 1, max).rooms {
      MemberIff(steps, n - 1, max, code, user);
      forall m: nat | MemberSince(steps, m, n, max, code, user)
        ensures MemberSince(steps, m, n - 1, max, code, user) && !ExitsAt(steps, n - 1, max, code, user)
      {
        SinceShorter(steps, m, n, max, code, user);
      }
      if IsMember(steps, n, max, code, user) {
        var m :| MemberSince(steps, m, n - 1, max, code, user);
        assert MemberSince(steps, m, n, max, code, user);
      }
    } else {
      assert forall m: nat :: MemberSince(steps, m, n, max, code, user) ==> m < n - 1 && !ExitsAt(steps, n - 1, max, code, user);
    }
  }

  // A mark that survives a step was there before, and the room stayed empty.
  lemma MarkIsOld(s: Tables, step: Step, max: nat, code: Code)
    requires Good(s, max)
    requires var t := Apply(s, step, max); code in t.rooms && t.rooms[code].emptySince.Some? && t.rooms[code].emptySince.value != step.now
    ensures code in s.rooms && s.rooms[code].emptySince == Apply(s, step, max).rooms[code].emptySince
    ensures s.rooms[code].members == {}
  {
    assert code in s.rooms ==> GoodRoom(s, s.rooms[code], max);
  }

  // No state before step `n` that lasted beyond `t` had a member in the room.
  ghost predicate EmptyFrom(steps: seq<Step>, n: nat, max: nat, code: Code, t: int)
    requires n <= |steps|
  {
    forall i {:trigger OccupiedAt(steps, i, max, code)} :: 0 <= i < n && steps[i].now > t ==> !OccupiedAt(steps, i, max, code)
  }

  predicate OccupiedAt(steps: seq<Step>, n: nat, max: nat, code: Code)
    requires n <= |steps|
  {
    Occupied(State(steps, n, max), code)
  }

  // The mark of a room after a step: set now, or old and the room was empty already.
  lemma MarkStep(s: Tables, step: Step, max: nat, code: Code, t: int)
    requires Good(s, max) && code in Apply(s, step, max).rooms && Apply(s, step, max).rooms[code].emptySince == Some(t)
    ensures t == step.now || (code in s.rooms && s.rooms[code].emptySince == Some(t) && !Occupied(s, code))
  {
    if t != step.now {
      MarkIsOld(s, step, max, code);
    }
  }

  lemma EmptyFromNow(steps: seq<Step>, n: nat, max: nat, code: Code)
    requires Ordered(steps) && 0 < n <= |steps|
    ensures EmptyFrom(steps, n, max, code, steps[n - 1].now)
  {
  }

  lemma EmptyFromNext(steps: seq<Step>, n: nat, max: nat, code: Code, t: int)
    requires 0 < n <= |steps| && EmptyFrom(steps, n - 1, max, code, t) && !Occupied(State(steps, n - 1, max), code)
    ensures EmptyFrom(steps, n, max, code, t)
  {
  }

  /** A mark says since when the room has been empty: no state that lasted beyond the
      marked time had a member. */
  lemma {:induction false} EmptySinceMark(steps: seq<Step>, n: nat, max: nat, code: Code, t: int)
    requires Ordered(steps) && n <= |steps| && max >= 1
    requires code in State(steps, n, max).rooms && State(steps, n, max).rooms[code].emptySince == Some(t)
    ensures EmptyFrom(steps, n, max, code, t)
  {
    var s := State(steps, n - 1, max);
    RunIsGood(steps, n - 1, max);
    MarkStep(s, steps[n - 1], max, code, t);
    if t == steps[n - 1].now {
      EmptyFromNow(steps, n, max, code);
    } else {
      EmptySinceMark(steps, n - 1, max, code, t);
      EmptyFromNext(steps, n, max, code, t);
    }
  }

  lemma RemovedWasMarked(s: Tables, step: Step, max: nat, code: Code, cutoff: int)
    requires step.action == DeleteEmpty(code, cutoff) && code in s.rooms
    ensures code !in Apply(s, step, max).rooms <==> EmptyBy(s.rooms[code], cutoff)
  {
  }

  lemma MarkedForLong(steps: seq<Step>, n: nat, max: nat, code: Code, cutoff: int)
    requires Ordered(steps) && n <= |steps| && max >= 1
    requires code in State(steps, n, max).rooms && EmptyBy(State(steps, n, max).rooms[code], cutoff)
    ensures !Occupied(State(steps, n, max), code) && State(steps, n, max).rooms[code].createdAt <= cutoff
    ensures EmptyFrom(steps, n, max, code, cutoff)
  {
    EmptySinceMark(steps, n, max, code, State(steps, n, max).rooms[code].emptySince.value);
    RunIsGood(steps, n, max);
    assert GoodRoom(State(steps, n, max), State(steps, n, max).rooms[code], max);
  }

  /** A room that the empty path removes existed at the cutoff and has had no member since
      then, whatever happened between the listing and the removal. With the cutoff `grace`
      seconds before the listing, these are at least the last `grace` seconds. */
  lemma RemovedRoomWasEmpty(steps: seq<Step>, n: nat, max: nat, code: Code, cutoff: int)
    requires Ordered(steps) && n < |steps| && max >= 1 && steps[n].action == DeleteEmpty(code, cutoff)
    requires code in State(steps, n, max).rooms && code !in State(steps, n + 1, max).rooms
    ensures !Occupied(State(steps, n, max), code) && State(steps, n, max).rooms[code].createdAt <= cutoff
    ensures EmptyFrom(steps, n, max, code, cutoff)
  {
    RemovedWasMarked(State(steps, n, max), steps[n], max, code, cutoff);
    MarkedForLong(steps, n, max, code, cutoff);
  }

  // A leave marks an empty room anew, also when it comes from somebody who is not in it.
  predicate LeavesAt(s: Tables, step: Step, code: Code) {
    step.action.Leave? && step.action.code == code && Open(s, code, step.now)
  }

  lemma EmptyingStep(s: Tables, step: Step, max: nat, code: Code)
    requires Good(s, max) && Occupied(s, code)
    requires code in Apply(s, step, max).rooms && !Occupied(Apply(s, step, max), code)
    ensures Apply(s, step, max).rooms[code].emptySince.None? <==> step.action.RemoveUser?
  {
    assert GoodRoom(s, s.rooms[code], max);
  }

  lemma EmptyStep(s: Tables, step: Step, max: nat, code: Code)
    requires code in s.rooms && !Occupied(s, code)
    requires code in Apply(s, step, max).rooms && !Occupied(Apply(s, step, max), code)
    ensures Apply(s, step, max).rooms[code].emptySince.None? <==> s.rooms[code].emptySince.None? && !LeavesAt(s, step, code)
  {
  }

  lemma EmptyRoomIsOld(s: Tables, step: Step, max: nat, code: Code)
    requires code in Apply(s, step, max).rooms && !Occupied(Apply(s, step, max), code)
    ensures code in s.rooms
  {
  }

  // At step `m` the deletion of a user took the last member, and up to step `n` the room
  // has stayed empty without a leave.
  ghost predicate Abandoned(steps: seq<Step>, m: nat, n: nat, max: nat, code: Code)
    requires n <= |steps|
  {
    && m < n && Occupied(State(steps, m, max), code) && steps[m].action.RemoveUser?
    && forall i {:trigger EmptyAt(steps, i, max, code)} :: m < i < n ==> EmptyAt(steps, i, max, code)
  }

  ghost predicate IsAbandoned(steps: seq<Step>, n: nat, max: nat, code: Code)
    requires n <= |steps|
  {
    exists m: nat | m < n :: Abandoned(steps, m, n, max, code)
  }

  predicate EmptyAt(steps: seq<Step>, n: nat, max: nat, code: Code)
    requires n < |steps|
  {
    var s := State(steps, n, max);
    code in s.rooms && !Occupied(s, code) && !LeavesAt(s, steps[n], code)
  }

  /** In every run an empty room is unmarked if and only if its last member went with the
      deletion of a user and nobody has sent a leave for it since. */
  lemma {:induction false} UnmarkedIff(steps: seq<Step>, n: nat, max: nat, code: Code)
    requires Ordered(steps) && n <= |steps| && max >= 1
    requires code in State(steps, n, max).rooms && !Occupied(State(steps, n, max), code)
    ensures State(steps, n, max).rooms[code].emptySince.None? <==> IsAbandoned(steps, n, max, code)
  {
    var s := State(steps, n - 1, max);
    EmptyRoomIsOld(s, steps[n - 1], max, code);
    if Occupied(s, code) {
      RunIsGood(steps, n - 1, max);
      EmptyingStep(s, steps[n - 1], max, code);
      AbandonedNow(steps, n, max, code);
    } else {
      UnmarkedIff(steps, n - 1, max, code);
      EmptyStep(s, steps[n - 1], max, code);
      AbandonedBefore(steps, n, max, code);
    }
  }

  lemma AbandonedNow(steps: seq<Step>, n: nat, max: nat, code: Code)
    requires 0 < n <= |steps| && Occupied(State(steps, n - 1, max), code)
    ensures steps[n - 1].action.RemoveUser? <==> IsAbandoned(steps, n, max, code)
  {
    assert !EmptyAt(steps, n - 1, max, code);
    if steps[n - 1].action.RemoveUser? {
      assert Abandoned(steps, n - 1, n, max, code);
    }
  }

  lemma AbandonedBefore(steps: seq<Step>, n: nat, max: nat, code: Code)
    requires 0 < n <= |steps| && code in State(steps, n - 1, max).rooms && !Occupied(State(steps, n - 1, max), code)
    ensures IsAbandoned(steps, n, max, code)
      <==> IsAbandoned(steps, n - 1, max, code) && !LeavesAt(State(steps, n - 1, max), steps[n - 1], code)
  {
    var before := n - 1;
    if m: nat :| m < n && Abandoned(steps, m, n, max, code) {
      assert m < before;
      assert EmptyAt(steps, before, max, code);
      assert Abandoned(steps, m, before, max, code);
    }
    if IsAbandoned(steps, before, max, code) && !LeavesAt(State(steps, before, max), steps[before], code) {
      var m: nat :| m < before && Abandoned(steps, m, before, max, code);
      assert EmptyAt(steps, before, max, code);
      assert Abandoned(steps, m, n, max, code);
    }
  }

  /** Such a room does arise: its owner leaves, and the account of the last guest is
      deleted. */
  lemma AbandonedRoomArises(code: Code, now: int, ttl: nat)
    requires ttl > 0
    ensures var steps := [Step(now, Register("a")), Step(now, Register("b")), Step(now, Insert(code, "a", ttl)),
                          Step(now, Join(code, "b")), Step(now, Leave(code, "a")), Step(now, RemoveUser("b"))];
      var s := State(steps, 6, 2);
      code in s.rooms && s.rooms[code].members == {} && s.rooms[code].emptySince.None?
  {
    var steps := [Step(now, Register("a")), Step(now, Register("b")), Step(now, Insert(code, "a", ttl)),
                  Step(now, Join(code, "b")), Step(now, Leave(code, "a")), Step(now, RemoveUser("b"))];
    var room := Room("a", now, now + ttl, None, {"a"});
    assert {"a", "b"} - {"a"} == {"b"} && {"b"} - {"b"} == {};
    Onward(steps, 0, Tables({}, map[]), Tables({"a"}, map[]));
    Onward(steps, 1, Tables({"a"}, map[]), Tables({"a", "b"}, map[]));
    Onward(steps, 2, Tables({"a", "b"}, map[]), Tables({"a", "b"}, map[code := room]));
    Onward(steps, 3, Tables({"a", "b"}, map[code := room]), Tables({"a", "b"}, map[code := room.(members := {"a", "b"})]));
    Onward(steps, 4, Tables({"a", "b"}, map[code := room.(members := {"a", "b"})]), Tables({"a", "b"}, map[code := room.(members := {"b"})]));
    Onward(steps, 5, Tables({"a", "b"}, map[code := room.(members := {"b"})]), Tables({"a"}, map[code := room.(members := {})]));
  }

  lemma Onward(steps: seq<Step>, n: nat, s: Tables, t: Tables)
    requires n < |steps| && State(steps, n, 2) == s && Apply(s, steps[n], 2) == t
    ensures State(steps, n + 1, 2) == t
  {
  }

  // A step that brings somebody into the room or marks it again.
  predicate Touches(step: Step, code: Code) {
    (step.action.Join? || step.action.Leave?) && step.action.code == code
  }

  lemma UntouchedStep(s: Tables, step: Step, max: nat, code: Code)
    requires code in s.rooms && s.rooms[code].emptySince == None && s.rooms[code].members == {}
    requires !Touches(step, code) && code in Apply(s, step, max).rooms
    ensures var r := Apply(s, step, max).rooms[code]; r.emptySince == None && r.members == {}
  {
  }

  /** Such an abandoned room is out of the empty path's reach: until somebody joins it or
      sends a leave for it, only its expiry or its owner can remove it. */
  lemma {:induction false} AbandonedStays(steps: seq<Step>, m: nat, n: nat, max: nat, code: Code)
    requires m <= n < |steps|
    requires forall i :: m <= i < n ==> !Touches(steps[i], code)
    requires forall i :: m <= i <= n ==> code in State(steps, i, max).rooms
    requires var s := State(steps, m, max); s.rooms[code].emptySince == None && s.rooms[code].members == {}
    requires steps[n].action.DeleteEmpty?
    ensures code in State(steps, n + 1, max).rooms
    ensures var r := State(steps, n, max).rooms[code]; r.emptySince == None && r.members == {}
  {
    var i := m;
    while i < n
      invariant m <= i <= n
      invariant var r := State(steps, i, max).rooms[code]; r.emptySince == None && r.members == {}
    {
      assert State(steps, i + 1, max) == Apply(State(steps, i, max), steps[i], max);
      UntouchedStep(State(steps, i, max), steps[i], max, code);
      i := i + 1;
    }
  }
}
