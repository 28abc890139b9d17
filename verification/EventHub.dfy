/** The realtime event bus: every subscription is a channel that holds up to 16 unread
    events, and publishing never waits but drops an event for a channel that is full. */
module EventHub {
  type ID = string
  type Event = string

  const CAPACITY: nat := 16

  // A channel, named by the number of its subscription, with what its reader has taken.
  datatype Channel = Channel(owner: ID, unread: seq<Event>, taken: seq<Event>, closed: bool)

  // `stuck`: a panic under the lock, which leaves the lock held for good.
  datatype State = State(users: map<ID, set<nat>>, channels: seq<Channel>, stuck: bool)

  datatype Step =
    | Subscribe(user: ID)
    | Stop(channel: nat)
    | Publish(users: seq<ID>, event: Event)
    | Receive(channel: nat)

  function Subscriptions(users: map<ID, set<nat>>, user: ID): set<nat> {
    if user in users then users[user] else {}
  }

  function Offered(c: Channel, e: Event): Channel {
    if |c.unread| < CAPACITY then c.(unread := c.unread + [e]) else c
  }

  function OfferedTo(channels: seq<Channel>, targets: set<nat>, e: Event): (r: seq<Channel>)
    ensures |r| == |channels|
    ensures forall c :: 0 <= c < |r| ==> r[c] == if c in targets then Offered(channels[c], e) else channels[c]
  {
    seq(|channels|, c requires 0 <= c < |channels| => if c in targets then Offered(channels[c], e) else channels[c])
  }

  function Published(users: map<ID, set<nat>>, channels: seq<Channel>, ids: seq<ID>, e: Event): seq<Channel> {
    if ids == [] then channels
    else
      OfferedTo(Published(users, channels, ids[..|ids| - 1], e), Subscriptions(users, ids[|ids| - 1]), e)
  }

  function Without(users: map<ID, set<nat>>, user: ID, channel: nat): map<ID, set<nat>> {
    var left := Subscriptions(users, user) - {channel};
    if left == {} then users - {user} else users[user := left]
  }

  function Taken(c: Channel): Channel {
    if c.unread == [] then c else c.(taken := c.taken + [c.unread[0]], unread := c.unread[1..])
  }

  function Apply(s: State, step: Step): State {
    match step
    case Receive(c) => if c >= |s.channels| then s else s.(channels := s.channels[c := Taken(s.channels[c])])
    case Subscribe(user) =>
      if s.stuck then s
      else State(s.users[user := Subscriptions(s.users, user) + {|s.channels|}], s.channels + [Channel(user, [], [], false)], false)
    case Stop(c) =>
      if s.stuck || c >= |s.channels| then s
      else if s.channels[c].closed then s.(users := Without(s.users, s.channels[c].owner, c), stuck := true)
      else State(Without(s.users, s.channels[c].owner, c), s.channels[c := s.channels[c].(closed := true)], false)
    case Publish(ids, e) => if s.stuck then s else s.(channels := Published(s.users, s.channels, ids, e))
  }

  // Only open channels are registered, each under its owner, and all of them.
  ghost predicate Valid(s: State) {
    && (forall u, c :: u in s.users && c in s.users[u] ==> Registered(s, u, c))
    && (forall c :: 0 <= c < |s.channels| && !s.channels[c].closed ==> c in Subscriptions(s.users, s.channels[c].owner))
    && (forall u :: u in s.users ==> s.users[u] != {})
    && forall c :: 0 <= c < |s.channels| ==> |s.channels[c].unread| <= CAPACITY
  }

  predicate Registered(s: State, u: ID, c: nat) {
    c < |s.channels| && s.channels[c].owner == u && !s.channels[c].closed
  }

  class Hub {
    var users: map<ID, set<nat>>
    var channels: seq<Channel>
    var stuck: bool

    constructor ()
      ensures Contents() == State(map[], [], false) && Valid(Contents())
    {
      users, channels, stuck := map[], [], false;
    }

    function Contents(): State
      reads this
    {
      State(users, channels, stuck)
    }

    method Subscribe(user: ID) returns (c: nat)
      requires Valid(Contents()) && !stuck
      modifies this
      ensures Contents() == Apply(old(Contents()), Step.Subscribe(user)) && c == |old(channels)|
    {
      c := |channels|;
      channels := channels + [Channel(user, [], [], false)];
      if user !in users {
        users := users[user := {}];
      }
      users := users[user := users[user] + {c}];
    }

    // The stop function of a subscription; closing twice panics with the lock held.
    method Stop(c: nat)
      requires Valid(Contents()) && !stuck && c < |channels|
      modifies this
      ensures Contents() == Apply(old(Contents()), Step.Stop(c))
    {
      var user := channels[c].owner;
      if user in users {
        users := users[user := users[user] - {c}];
      }
      if user !in users || users[user] == {} {
        users := users - {user};
      }
      if channels[c].closed {
        stuck := true;
      } else {
        channels := channels[c := channels[c].(closed := true)];
      }
    }

    method Online(user: ID) returns (online: bool)
      requires Valid(Contents())
      ensures online <==> exists c :: 0 <= c < |channels| && channels[c].owner == user && !channels[c].closed
    {
      online := user in users && |users[user]| > 0;
      if online {
        var c :| c in users[user];
        assert Registered(Contents(), user, c);
      }
    }

    method Receive(c: nat) returns (event: seq<Event>)
      requires c < |channels|
      modifies this`channels
      ensures Contents() == Apply(old(Contents()), Step.Receive(c))
      ensures event == if old(channels)[c].unread == [] then [] else [old(channels)[c].unread[0]]
    {
      event := [];
      if channels[c].unread != [] {
        event := [channels[c].unread[0]];
        channels := channels[c := channels[c].(taken := channels[c].taken + event, unread := channels[c].unread[1..])];
      }
      assert channels == old(channels)[c := Taken(old(channels)[c])];
    }

    // A send that does not wait. Sending on a closed channel would panic.
    method TrySend(c: nat, e: Event)
      requires c < |channels| && !channels[c].closed
      modifies this`channels
      ensures channels == old(channels)[c := Offered(old(channels)[c], e)]
    {
      if |channels[c].unread| < CAPACITY {
        channels := channels[c := channels[c].(unread := channels[c].unread + [e])];
      }
    }

    method Publish(ids: seq<ID>, e: Event)
      requires Valid(Contents()) && !stuck
      modifies this`channels
      ensures Contents() == Apply(old(Contents()), Step.Publish(ids, e))
    {
      var i := 0;
      while i < |ids|
        invariant 0 <= i <= |ids|
        invariant Valid(Contents())
        invariant channels == Published(users, old(channels), ids[..i], e)
      {
        assert ids[..i + 1][..i] == ids[..i];
        assert forall d :: d in Subscriptions(users, ids[i]) ==> Registered(Contents(), ids[i], d);
        FanKeepsValid(Contents(), ids[i], e);
        Fan(ids[i], e);
        i := i + 1;
      }
      assert ids[..i] == ids;
    }

    method Fan(user: ID, e: Event)
      requires forall c :: c in Subscriptions(users, user) ==> c < |channels| && !channels[c].closed
      modifies this`channels
      ensures channels == OfferedTo(old(channels), Subscriptions(users, user), e)
    {
      var left := if user in users then users[user] else {};
      ghost var all := left;
      while left != {}
        invariant left <= all
        invariant |channels| == |old(channels)|
        invariant forall c :: 0 <= c < |channels| ==>
          channels[c] == if c in all && c !in left then Offered(old(channels)[c], e) else old(channels)[c]
        decreases |left|
      {
        var c :| c in left;
        TrySend(c, e);
        left := left - {c};
      }
    }
  }

  lemma FanKeepsValid(s: State, user: ID, e: Event)
    requires Valid(s)
    ensures Valid(s.(channels := OfferedTo(s.channels, Subscriptions(s.users, user), e)))
  {
    var t := s.(channels := OfferedTo(s.channels, Subscriptions(s.users, user), e));
    forall u, c | u in t.users && c in t.users[u]
      ensures Registered(t, u, c)
    {
      assert Registered(s, u, c);
    }
  }

  // ----- Runs -----

  function Before(steps: seq<Step>, n: nat): State
    requires n <= |steps|
  {
    if n == 0 then State(map[], [], false) else Apply(Before(steps, n - 1), steps[n - 1])
  }

  lemma {:induction false} PublishKeepsValid(s: State, ids: seq<ID>, e: Event)
    requires Valid(s)
    ensures Valid(s.(channels := Published(s.users, s.channels, ids, e)))
  {
    if ids != [] {
      var front := ids[..|ids| - 1];
      PublishKeepsValid(s, front, e);
      FanKeepsValid(s.(channels := Published(s.users, s.channels, front, e)), ids[|ids| - 1], e);
    }
  }

  lemma StopKeepsValid(s: State, c: nat)
    requires Valid(s) && !s.stuck && c < |s.channels| && !s.channels[c].closed
    ensures Valid(Apply(s, Stop(c)))
  {
    var t := Apply(s, Stop(c));
    forall u, d | u in t.users && d in t.users[u]
      ensures Registered(t, u, d)
    {
      assert Registered(s, u, d);
    }
  }

  lemma SubscribeKeepsValid(s: State, user: ID)
    requires Valid(s) && !s.stuck
    ensures Valid(Apply(s, Subscribe(user)))
  {
    var t := Apply(s, Subscribe(user));
    forall u, d | u in t.users && d in t.users[u]
      ensures Registered(t, u, d)
    {
      assert u in s.users && d in s.users[u] ==> Registered(s, u, d);
    }
  }

  lemma ReceiveKeepsValid(s: State, c: nat)
    requires Valid(s)
    ensures Valid(Apply(s, Receive(c)))
  {
    var t := Apply(s, Receive(c));
    forall u, d | u in t.users && d in t.users[u]
      ensures Registered(t, u, d)
    {
      assert Registered(s, u, d);
    }
  }

  lemma SecondStop(s: State, c: nat)
    requires Valid(s) && c < |s.channels| && s.channels[c].closed
    ensures Without(s.users, s.channels[c].owner, c) == s.users
  {
    var user := s.channels[c].owner;
    assert c in Subscriptions(s.users, user) ==> Registered(s, user, c);
    assert Subscriptions(s.users, user) - {c} == Subscriptions(s.users, user);
  }

  /** In every run exactly the open channels are registered, so that `Online` is exact,
      nothing is sent on a closed channel, and none holds more than 16 unread events. */
  lemma {:induction false} RunIsValid(steps: seq<Step>, n: nat)
    requires n <= |steps|
    ensures Valid(Before(steps, n))
  {
    if n > 0 {
      RunIsValid(steps, n - 1);
      var s := Before(steps, n - 1);
      match steps[n - 1]
      case Subscribe(user) =>
        if !s.stuck {
          SubscribeKeepsValid(s, user);
        }
      case Stop(c) =>
        if !s.stuck && c < |s.channels| {
          if s.channels[c].closed {
            SecondStop(s, c);
          } else {
            StopKeepsValid(s, c);
          }
        }
      case Publish(ids, e) => PublishKeepsValid(s, ids, e);
      case Receive(c) => ReceiveKeepsValid(s, c);
    }
  }

  // ----- Panics -----

  predicate StopsAt(steps: seq<Step>, i: nat, c: nat)
    requires i < |steps|
  {
    steps[i] == Stop(c) && c < |Before(steps, i).channels|
  }

  lemma {:induction false} PublishedShape(users: map<ID, set<nat>>, channels: seq<Channel>, ids: seq<ID>, e: Event)
    ensures var r := Published(users, channels, ids, e);
      && |r| == |channels|
      && forall c :: 0 <= c < |r| ==> r[c].owner == channels[c].owner && r[c].closed == channels[c].closed && r[c].taken == channels[c].taken
  {
    if ids != [] {
      PublishedShape(users, channels, ids[..|ids| - 1], e);
    }
  }

  lemma StepShape(s: State, step: Step)
    ensures var t := Apply(s, step);
      && |t.channels| == |s.channels| + (if step.Subscribe? && !s.stuck then 1 else 0)
      && (s.stuck ==> t.stuck)
      && (forall c :: 0 <= c < |s.channels| && !(step == Stop(c) && !s.stuck) ==> t.channels[c].closed == s.channels[c].closed)
      && (forall c :: 0 <= c < |s.channels| ==> t.channels[c].owner == s.channels[c].owner)
      && (forall c :: 0 <= c < |s.channels| && s.channels[c].closed ==> t.channels[c].closed)
      && (forall c :: |s.channels| <= c < |t.channels| ==> !t.channels[c].closed && t.channels[c].owner == step.user)
  {
    if step.Publish? {
      PublishedShape(s.users, s.channels, step.users, step.event);
    }
  }

  lemma {:induction false} ClosedWasStopped(steps: seq<Step>, n: nat, c: nat) returns (i: nat)
    requires n <= |steps| && c < |Before(steps, n).channels| && Before(steps, n).channels[c].closed
    ensures i < n && StopsAt(steps, i, c)
  {
    var s := Before(steps, n - 1);
    StepShape(s, steps[n - 1]);
    if c < |s.channels| && s.channels[c].closed {
      i := ClosedWasStopped(steps, n - 1, c);
    } else {
      i := n - 1;
    }
  }

  lemma {:induction false} StoppedIsClosed(steps: seq<Step>, i: nat, n: nat, c: nat)
    requires i < n <= |steps| && StopsAt(steps, i, c) && !Before(steps, n).stuck
    ensures c < |Before(steps, n).channels| && Before(steps, n).channels[c].closed
  {
    StepShape(Before(steps, n - 1), steps[n - 1]);
    if i < n - 1 {
      StoppedIsClosed(steps, i, n - 1, c);
    }
  }

  ghost predicate StoppedTwice(steps: seq<Step>, n: nat)
    requires n <= |steps|
  {
    exists i: nat, j: nat, c: nat :: i < j < n && StopsAt(steps, i, c) && StopsAt(steps, j, c)
  }

  /** The hub panics, and is then stuck for good, if and only if some stop function is
      called a second time. */
  lemma {:induction false} StuckIffStoppedTwice(steps: seq<Step>, n: nat)
    requires n <= |steps|
    ensures Before(steps, n).stuck <==> StoppedTwice(steps, n)
  {
    if n > 0 {
      StuckIffStoppedTwice(steps, n - 1);
      var s := Before(steps, n - 1);
      StepShape(s, steps[n - 1]);
      if Before(steps, n).stuck && !s.stuck {
        var c := steps[n - 1].channel;
        var i := ClosedWasStopped(steps, n - 1, c);
        assert StopsAt(steps, n - 1, c);
      }
      if !Before(steps, n).stuck {
        forall i: nat, j: nat, c: nat | i < j < n && StopsAt(steps, i, c)
          ensures !StopsAt(steps, j, c)
        {
          if j == n - 1 {
            StoppedIsClosed(steps, i, n - 1, c);
          }
        }
      }
    }
  }

  // The users of all subscriptions, in order.
  function Subscribers(steps: seq<Step>, n: nat): seq<ID>
    requires n <= |steps|
  {
    if n == 0 then []
    else
      Subscribers(steps, n - 1) + (if steps[n - 1].Subscribe? then [steps[n - 1].user] else [])
  }

  ghost predicate Stopped(steps: seq<Step>, n: nat, c: nat)
    requires n <= |steps|
  {
    exists i: nat | i < n :: StopsAt(steps, i, c)
  }

  lemma ClosedIffStopped(steps: seq<Step>, n: nat, c: nat)
    requires n <= |steps| && c < |Before(steps, n).channels| && !Before(steps, n).stuck
    ensures Before(steps, n).channels[c].closed <==> Stopped(steps, n, c)
  {
    if Before(steps, n).channels[c].closed {
      var i := ClosedWasStopped(steps, n, c);
    }
    forall i: nat | i < n && StopsAt(steps, i, c)
      ensures Before(steps, n).channels[c].closed
    {
      StoppedIsClosed(steps, i, n, c);
    }
  }

  /** As long as no stop function is called twice, there is one channel for every
      subscription, of its user, and it is open until it is stopped. */
  lemma {:induction false} ChannelsAreSubscriptions(steps: seq<Step>, n: nat)
    requires n <= |steps| && !StoppedTwice(steps, n)
    ensures var channels := Before(steps, n).channels;
      && |channels| == |Subscribers(steps, n)|
      && forall c :: 0 <= c < |channels| ==>
           channels[c].owner == Subscribers(steps, n)[c] && (channels[c].closed <==> Stopped(steps, n, c))
  {
    StuckIffStoppedTwice(steps, n);
    if n > 0 {
      assert !StoppedTwice(steps, n - 1);
      ChannelsAreSubscriptions(steps, n - 1);
      StuckIffStoppedTwice(steps, n - 1);
      StepShape(Before(steps, n - 1), steps[n - 1]);
    }
    forall c | 0 <= c < |Before(steps, n).channels|
      ensures Before(steps, n).channels[c].closed <==> Stopped(steps, n, c)
    {
      ClosedIffStopped(steps, n, c);
    }
  }

  // ----- What one subscriber sees -----

  // What happens to one channel: an event is offered, or its reader takes one.
  datatype Op = Offer(event: Event) | Take

  datatype Queue = Queue(unread: seq<Event>, taken: seq<Event>)

  // A bounded queue on its own.
  function RunQueue(ops: seq<Op>): Queue {
    if ops == [] then Queue([], [])
    else
      var q := RunQueue(ops[..|ops| - 1]);
      match ops[|ops| - 1]
      case Offer(e) => if |q.unread| < CAPACITY then q.(unread := q.unread + [e]) else q
      case Take => if q.unread == [] then q else Queue(q.unread[1..], q.taken + [q.unread[0]])
  }

  function Offers(ids: seq<ID>, user: ID, e: Event): seq<Op> {
    if ids == [] then []
    else
      var front := Offers(ids[..|ids| - 1], user, e);
      if ids[|ids| - 1] == user then front + [Offer(e)] else front
  }

  predicate Open(s: State, c: nat) {
    c < |s.channels| && !s.channels[c].closed && !s.stuck
  }

  // What a step does to channel `c`: it offers the events addressed to the owner of an
  // open channel, or reads.
  function Affects(s: State, step: Step, c: nat): seq<Op> {
    match step
    case Publish(ids, e) => if Open(s, c) then Offers(ids, s.channels[c].owner, e) else []
    case Receive(d) => if d == c && c < |s.channels| then [Take] else []
    case _ => []
  }

  function Ops(steps: seq<Step>, n: nat, c: nat): seq<Op>
    requires n <= |steps|
  {
    if n == 0 then [] else Ops(steps, n - 1, c) + Affects(Before(steps, n - 1), steps[n - 1], c)
  }

  function View(s: State, c: nat): Queue {
    if c < |s.channels| then Queue(s.channels[c].unread, s.channels[c].taken) else Queue([], [])
  }

  lemma RunAppend(ops: seq<Op>, op: Op)
    ensures RunQueue(ops + [op]) ==
      var q := RunQueue(ops);
      match op
      case Offer(e) => if |q.unread| < CAPACITY then q.(unread := q.unread + [e]) else q
      case Take => if q.unread == [] then q else Queue(q.unread[1..], q.taken + [q.unread[0]])
  {
    assert (ops + [op])[..|ops|] == ops;
  }

  lemma {:induction false} PublishIsOffers(users: map<ID, set<nat>>, channels: seq<Channel>, ids: seq<ID>, e: Event, c: nat, ops: seq<Op>)
    requires c < |channels| && forall u :: c in Subscriptions(users, u) <==> u == channels[c].owner
    requires RunQueue(ops) == Queue(channels[c].unread, channels[c].taken)
    ensures var d := Published(users, channels, ids, e);
      |d| == |channels| && RunQueue(ops + Offers(ids, channels[c].owner, e)) == Queue(d[c].unread, d[c].taken)
  {
    if ids == [] {
      assert ops + [] == ops;
    } else {
      var front, last, user := ids[..|ids| - 1], ids[|ids| - 1], channels[c].owner;
      PublishIsOffers(users, channels, front, e, c, ops);
      if last == user {
        var before := ops + Offers(front, user, e);
        assert ops + Offers(ids, user, e) == before + [Offer(e)];
        RunAppend(before, Offer(e));
      }
    }
  }

  lemma {:induction false} PublishSkips(users: map<ID, set<nat>>, channels: seq<Channel>, ids: seq<ID>, e: Event, c: nat)
    requires c < |channels| && forall u :: c !in Subscriptions(users, u)
    ensures |Published(users, channels, ids, e)| == |channels| && Published(users, channels, ids, e)[c] == channels[c]
  {
    if ids != [] {
      PublishSkips(users, channels, ids[..|ids| - 1], e, c);
    }
  }

  lemma PublishStep(s: State, ids: seq<ID>, e: Event, c: nat, ops: seq<Op>)
    requires Valid(s) && RunQueue(ops) == View(s, c) && !s.stuck && c < |s.channels|
    ensures RunQueue(ops + Affects(s, Publish(ids, e), c)) == View(Apply(s, Publish(ids, e)), c)
  {
    assert forall u :: c in Subscriptions(s.users, u) ==> Registered(s, u, c);
    if s.channels[c].closed {
      PublishSkips(s.users, s.channels, ids, e, c);
      assert ops + [] == ops;
    } else {
      PublishIsOffers(s.users, s.channels, ids, e, c, ops);
    }
  }

  lemma ReceiveStep(s: State, c: nat, ops: seq<Op>)
    requires RunQueue(ops) == View(s, c) && c < |s.channels|
    ensures RunQueue(ops + [Take]) == View(Apply(s, Receive(c)), c)
  {
    RunAppend(ops, Take);
  }

  // Every other step leaves the channel as it is.
  lemma ViewKept(s: State, step: Step, c: nat)
    requires !(step.Receive? && step.channel == c && c < |s.channels|)
    requires !(step.Publish? && !s.stuck && c < |s.channels|)
    ensures Affects(s, step, c) == [] && View(Apply(s, step), c) == View(s, c)
  {
    if step.Publish? {
      PublishedShape(s.users, s.channels, step.users, step.event);
    }
  }

  lemma ChannelStep(s: State, step: Step, c: nat, ops: seq<Op>)
    requires Valid(s) && RunQueue(ops) == View(s, c)
    ensures RunQueue(ops + Affects(s, step, c)) == View(Apply(s, step), c)
  {
    if step.Publish? && !s.stuck && c < |s.channels| {
      PublishStep(s, step.users, step.event, c, ops);
    } else if step.Receive? && step.channel == c && c < |s.channels| {
      ReceiveStep(s, c, ops);
    } else {
      ViewKept(s, step, c);
      assert ops + [] == ops;
    }
  }

  lemma RunStep(steps: seq<Step>, n: nat, c: nat, s: State, ops: seq<Op>)
    requires n < |steps| && s == Before(steps, n) && ops == Ops(steps, n, c)
    ensures Before(steps, n + 1) == Apply(s, steps[n])
    ensures Ops(steps, n + 1, c) == ops + Affects(s, steps[n], c)
  {
  }

  /** Every channel of the hub behaves like a bounded queue of its own that is offered the
      events addressed to its owner while it is open, once per mention, and nothing else. */
  lemma HubIsQueues(steps: seq<Step>, n: nat, c: nat)
    requires n <= |steps|
    ensures RunQueue(Ops(steps, n, c)) == View(Before(steps, n), c)
  {
    var s, ops, i := State(map[], [], false), [], 0;
    while i < n
      invariant 0 <= i <= n && s == Before(steps, i) && ops == Ops(steps, i, c)
      invariant RunQueue(ops) == View(s, c)
    {
      RunStep(steps, i, c, s, ops);
      RunIsValid(steps, i);
      ChannelStep(s, steps[i], c, ops);
      s, ops, i := Apply(s, steps[i]), ops + Affects(s, steps[i], c), i + 1;
    }
  }

  // The offered events with whether they were kept: a full queue drops them.
  function Fates(ops: seq<Op>): seq<(Event, bool)> {
    if ops == [] then []
    else
      var front, last := ops[..|ops| - 1], ops[|ops| - 1];
      if last.Offer? then Fates(front) + [(last.event, |RunQueue(front).unread| < 16)] else Fates(front)
  }

  function KeptOf(fates: seq<(Event, bool)>): seq<Event> {
    if fates == [] then []
    else
      var front, last := KeptOf(fates[..|fates| - 1]), fates[|fates| - 1];
      if last.1 then front + [last.0] else front
  }

  /** A reader gets the events offered to it in their order; an event is missing exactly
      when 16 events were unread at the time it was offered. */
  lemma {:induction false} StreamIsInOrder(ops: seq<Op>)
    ensures RunQueue(ops).taken + RunQueue(ops).unread == KeptOf(Fates(ops))
    ensures |RunQueue(ops).unread| <= CAPACITY
  {
    if ops != [] {
      var front, last := ops[..|ops| - 1], ops[|ops| - 1];
      StreamIsInOrder(front);
      if last.Offer? {
        var fates := Fates(front);
        assert Fates(ops)[..|fates|] == fates;
      }
    }
  }

  /** In every run, what the reader of a channel has taken and what waits for it are the
      events offered to it while it was open, in their order, without exactly those that
      were offered while 16 were unread. */
  lemma ReaderSeesStream(steps: seq<Step>, n: nat, c: nat)
    requires n <= |steps| && c < |Before(steps, n).channels|
    ensures var channel := Before(steps, n).channels[c];
      channel.taken + channel.unread == KeptOf(Fates(Ops(steps, n, c))) && |channel.unread| <= 16
  {
    HubIsQueues(steps, n, c);
    StreamIsInOrder(Ops(steps, n, c));
  }
}
