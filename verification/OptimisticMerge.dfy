/** The message list of the web client: a sent message appears at once as a pending
    entry, and the HTTP response and the server-sent event of the same message race to
    replace it. */
module OptimisticMerge {
  import opened Wrappers

  type ID = string

  datatype User = User(id: ID, displayName: string, avatar: string)

  datatype Message = Message(id: ID, group: ID, system: bool, event: string, author: User, body: string, createdAt: string, read: bool)

  datatype Status = Sending | Sent | Failed
  datatype Animation = Still | Incoming | Outgoing

  datatype View =
    | Chat(message: Message, status: Status, animate: Animation, viewID: Option<ID>)
    | System(id: ID, source: Message, body: string)

  // ----- The list operations -----

  predicate IsChat(item: View, id: ID) {
    item.Chat? && item.message.id == id
  }

  predicate HasChat(items: seq<View>, id: ID) {
    exists i :: 0 <= i < |items| && IsChat(items[i], id)
  }

  function MessageView(m: Message, animate: Animation): View {
    if m.system then System(m.id, m, m.body) else Chat(m, Sent, animate, None)
  }

  // Every chat entry with this id becomes `v`.
  function Replace(items: seq<View>, id: ID, v: View): (r: seq<View>)
    ensures |r| == |items|
    ensures forall i :: 0 <= i < |items| ==> r[i] == if IsChat(items[i], id) then v else items[i]
  {
    seq(|items|, i requires 0 <= i < |items| => if IsChat(items[i], id) then v else items[i])
  }

  // The list without the chat entries of this id.
  function Without(items: seq<View>, id: ID): seq<View> {
    if items == [] then []
    else (if IsChat(items[0], id) then [] else [items[0]]) + Without(items[1..], id)
  }

  function ReplaceOptimistic(items: seq<View>, optimistic: ID, sent: Message): seq<View> {
    if !HasChat(items, optimistic) then Replace(items, sent.id, MessageView(sent, Outgoing))
    else Replace(Without(items, sent.id), optimistic, MessageView(sent, Outgoing))
  }

  predicate Matches(item: View, m: Message, me: Option<User>) {
    && item.Chat? && item.status == Sending && item.message.group == m.group
    && me.Some? && item.message.author.id == me.value.id && item.message.body == m.body
  }

  // Index of the first pending entry that looks like `m`, or the length of the list.
  function FirstPending(items: seq<View>, m: Message, me: Option<User>): (i: nat)
    ensures i <= |items|
    ensures i < |items| ==> Matches(items[i], m, me)
    ensures forall k :: 0 <= k < i ==> !Matches(items[k], m, me)
  {
    if items == [] || Matches(items[0], m, me) then 0
    else
      FirstPending(items[1..], m, me) + 1
  }

  function MergeIncoming(items: seq<View>, m: Message, me: Option<User>): seq<View> {
    var i := FirstPending(items, m, me);
    if i < |items| then items[i := Chat(m, Sent, Outgoing, items[i].viewID)]
    else if HasChat(items, m.id) then items
    else items + [MessageView(m, Incoming)]
  }

  function MarkFailed(items: seq<View>, optimistic: ID): (r: seq<View>)
    ensures |r| == |items|
    ensures forall i :: 0 <= i < |items| ==> r[i] == if IsChat(items[i], optimistic) then items[i].(status := Failed) else items[i]
  {
    seq(|items|, i requires 0 <= i < |items| => if IsChat(items[i], optimistic) then items[i].(status := Failed) else items[i])
  }

  function MarkRead(items: seq<View>, id: ID): (r: seq<View>)
    ensures |r| == |items|
    ensures forall i :: 0 <= i < |items| ==>
      r[i] == if IsChat(items[i], id) then items[i].(message := items[i].message.(read := true)) else items[i]
  {
    seq(|items|, i requires 0 <= i < |items| =>
      if IsChat(items[i], id) then items[i].(message := items[i].message.(read := true)) else items[i])
  }

  function Patch(item: View, profile: User): View {
    if item.Chat? && item.message.author.id == profile.id then item.(message := item.message.(author := profile)) else item
  }

  function UpdateProfile(items: seq<View>, profile: User): (r: seq<View>)
    ensures |r| == |items|
    ensures forall i :: 0 <= i < |items| ==> r[i] == Patch(items[i], profile)
  {
    seq(|items|, i requires 0 <= i < |items| => Patch(items[i], profile))
  }

  function Opened(messages: seq<Message>): (r: seq<View>)
    ensures |r| == |messages|
    ensures forall i :: 0 <= i < |messages| ==> r[i] == MessageView(messages[i], Still)
  {
    seq(|messages|, i requires 0 <= i < |messages| => MessageView(messages[i], Still))
  }

  function Pending(optimistic: ID, group: ID, me: User, text: string, createdAt: string): View {
    Chat(Message(optimistic, group, false, "", me, text, createdAt, false), Sending, Outgoing, Some(optimistic))
  }

  // ----- The store -----

  // What reaches the store. `Begin` carries the trimmed text. Opening a group is a `Close`
  // and, when the group has been loaded, an `Open`.
  datatype Event =
    | Begin(optimistic: ID, text: string, createdAt: string)
    | Response(optimistic: ID, sent: Message)
    | Failure(optimistic: ID)
    | Echo(message: Message)
    | Delete(id: ID)
    | Read(id: ID)
    | Profile(user: User)
    | Close
    | Open(group: ID, messages: seq<Message>)

  datatype Session = Session(items: seq<View>, group: Option<ID>, me: Option<User>)

  function Apply(s: Session, e: Event): Session {
    match e
    case Begin(optimistic, text, createdAt) =>
      if s.group.None? || s.me.None? || text == "" then s
      else s.(items := s.items + [Pending(optimistic, s.group.value, s.me.value, text, createdAt)])
    case Response(optimistic, sent) => s.(items := ReplaceOptimistic(s.items, optimistic, sent))
    case Failure(optimistic) => s.(items := MarkFailed(s.items, optimistic))
    case Echo(m) => if s.group == Some(m.group) then s.(items := MergeIncoming(s.items, m, s.me)) else s
    case Delete(id) => s.(items := Without(s.items, id))
    case Read(id) => s.(items := MarkRead(s.items, id))
    case Profile(user) => s.(items := UpdateProfile(s.items, user))
    case Close => s.(items := [], group := None)
    case Open(group, messages) => s.(items := Opened(messages), group := Some(group))
  }

  class GroupsStore {
    var messages: seq<View>
    var current: Option<ID>
    var user: Option<User>

    constructor (user: Option<User>)
      ensures Contents() == Session([], None, user)
    {
      messages, current, this.user := [], None, user;
    }

    function Contents(): Session
      reads this
    {
      Session(messages, current, user)
    }

    method BeginSend(optimistic: ID, text: string, createdAt: string) returns (sending: bool)
      modifies this`messages
      ensures Contents() == Apply(old(Contents()), Begin(optimistic, text, createdAt))
      ensures sending <==> current.Some? && user.Some? && text != ""
      ensures sending ==>
        var m := Message(optimistic, current.value, false, "", user.value, text, createdAt, false);
        messages == old(messages) + [Chat(m, Sending, Outgoing, Some(optimistic))]
      ensures !sending ==> messages == old(messages)
    {
      if current.None? || user.None? || text == "" {
        return false;
      }
      messages := messages + [Pending(optimistic, current.value, user.value, text, createdAt)];
      return true;
    }

    method FinishSend(optimistic: ID, sent: Option<Message>)
      modifies this`messages
      ensures Contents() == Apply(old(Contents()), if sent.Some? then Response(optimistic, sent.value) else Failure(optimistic))
      ensures forall k: nat | sent.Some? && k < |old(messages)| ::
        InFlight(old(messages), k, optimistic, sent.value) ==> messages == old(messages)[k := MessageView(sent.value, Outgoing)]
      ensures sent.None? ==> |messages| == |old(messages)| && forall i :: 0 <= i < |messages| ==>
        messages[i] == if IsChat(old(messages)[i], optimistic) then old(messages)[i].(status := Failed) else old(messages)[i]
    {
      if sent.Some? {
        forall k: nat | k < |messages| && InFlight(messages, k, optimistic, sent.value)
          ensures ReplaceOptimistic(messages, optimistic, sent.value) == messages[k := MessageView(sent.value, Outgoing)]
        {
          ResponseInPlace(messages, k, optimistic, sent.value);
        }
        messages := ReplaceOptimistic(messages, optimistic, sent.value);
      } else {
        messages := MarkFailed(messages, optimistic);
      }
    }

    method MergeMessage(m: Message) returns (markRead: bool)
      modifies this`messages
      ensures Contents() == Apply(old(Contents()), Echo(m))
      ensures markRead <==> current == Some(m.group) && !(user.Some? && m.author.id == user.value.id)
    {
      markRead := false;
      if current == Some(m.group) {
        messages := MergeIncoming(messages, m, user);
        markRead := user.None? || m.author.id != user.value.id;
      }
    }

    method RemoveMessage(id: ID)
      modifies this`messages
      ensures Contents() == Apply(old(Contents()), Delete(id))
      ensures forall other :: HasChat(messages, other) <==> other != id && HasChat(old(messages), other)
      ensures forall x :: x in messages <==> x in old(messages) && !IsChat(x, id)
    {
      forall other
        ensures HasChat(Without(messages, id), other) <==> other != id && HasChat(messages, other)
      {
        WithoutHas(messages, id, other);
      }
      WithoutContents(messages, id);
      messages := Without(messages, id);
    }

    method MarkMessageRead(id: ID)
      modifies this`messages
      ensures Contents() == Apply(old(Contents()), Read(id))
    {
      messages := MarkRead(messages, id);
    }

    method ChangeProfile(profile: User)
      modifies this`messages
      ensures Contents() == Apply(old(Contents()), Profile(profile))
    {
      messages := UpdateProfile(messages, profile);
    }

    method CloseGroup()
      modifies this`messages, this`current
      ensures Contents() == Apply(old(Contents()), Close)
    {
      messages, current := [], None;
    }

    method OpenGroup(group: ID, loaded: seq<Message>)
      modifies this`messages, this`current
      ensures Contents() == Apply(old(Contents()), Open(group, loaded))
      ensures forall o :: FirstPending(messages, o, user) == |messages|
      ensures forall id :: HasChat(messages, id) <==> exists i :: 0 <= i < |loaded| && !loaded[i].system && loaded[i].id == id
    {
      forall id
        ensures HasChat(Opened(loaded), id) <==> exists i :: 0 <= i < |loaded| && !loaded[i].system && loaded[i].id == id
      {
        OpenedHas(loaded, id);
      }
      messages, current := Opened(loaded), Some(group);
    }
  }

  // ----- What the list operations do -----

  lemma {:induction false} WithoutContents(items: seq<View>, id: ID)
    ensures forall x :: x in Without(items, id) <==> x in items && !IsChat(x, id)
  {
    if items != [] {
      WithoutContents(items[1..], id);
    }
  }

  lemma OpenedHas(messages: seq<Message>, id: ID)
    ensures HasChat(Opened(messages), id) <==> exists i :: 0 <= i < |messages| && !messages[i].system && messages[i].id == id
  {
    var items := Opened(messages);
    assert forall i :: 0 <= i < |messages| ==> IsChat(items[i], id) == (!messages[i].system && messages[i].id == id);
  }

  // ----- Which entry an echo takes -----

  /** What an echo does to an entry that is shown: nothing, or it takes it, which it does only
      to a pending message of mine in its group and with its text. */
  lemma EchoTakesOnlyTwins(items: seq<View>, m: Message, me: Option<User>, k: nat)
    requires k < |items|
    ensures |items| <= |MergeIncoming(items, m, me)|
    ensures MergeIncoming(items, m, me)[k] != items[k] ==>
      && items[k].Chat? && items[k].status == Sending && items[k].message.group == m.group
      && me.Some? && items[k].message.author.id == me.value.id && items[k].message.body == m.body
  {
  }

  /** The first such entry becomes the message, at its place, and nothing else changes. */
  lemma FirstTwinIsTaken(items: seq<View>, m: Message, me: User, k: nat)
    requires k < |items| && items[k].Chat? && items[k].status == Sending && items[k].message.group == m.group
    requires items[k].message.author.id == me.id && items[k].message.body == m.body
    requires forall j :: 0 <= j < k && items[j].Chat? && items[j].status == Sending && items[j].message.author.id == me.id ==>
      items[j].message.group != m.group || items[j].message.body != m.body
    ensures MergeIncoming(items, m, Some(me)) == items[k := Chat(m, Sent, Outgoing, items[k].viewID)]
  {
    assert Matches(items[k], m, Some(me));
  }

  /** Without one the message is appended, once. */
  lemma NewMessageIsAppended(items: seq<View>, m: Message, me: Option<User>)
    requires forall j :: 0 <= j < |items| && items[j].Chat? && items[j].status == Sending && me.Some? ==>
      items[j].message.author.id != me.value.id || items[j].message.group != m.group || items[j].message.body != m.body
    ensures var added := [if m.system then System(m.id, m, m.body) else Chat(m, Sent, Incoming, None)];
      MergeIncoming(items, m, me) == if HasChat(items, m.id) then items else items + added
  {
    assert FirstPending(items, m, me) == |items|;
  }

  // ----- Two orders of one response and one echo -----

  lemma WithoutAbsent(items: seq<View>, id: ID)
    requires !HasChat(items, id)
    ensures Without(items, id) == items
  {
    if items != [] {
      assert !IsChat(items[0], id);
      forall i | 0 <= i < |items[1..]|
        ensures !IsChat(items[1..][i], id)
      {
        assert items[1..][i] == items[i + 1];
      }
      WithoutAbsent(items[1..], id);
    }
  }

  lemma {:induction false} WithoutConcat(a: seq<View>, b: seq<View>, id: ID)
    ensures Without(a + b, id) == Without(a, id) + Without(b, id)
  {
    if a == [] {
      assert a + b == b;
    } else {
      assert (a + b)[1..] == a[1..] + b;
      WithoutConcat(a[1..], b, id);
    }
  }

  // The pending entry of a send at index `k`, before its message is in the list.
  ghost predicate InFlight(items: seq<View>, k: nat, optimistic: ID, sent: Message) {
    && k < |items| && IsChat(items[k], optimistic) && items[k].status == Sending
    && (forall i :: 0 <= i < |items| && i != k ==> !IsChat(items[i], optimistic))
    && !HasChat(items, sent.id) && !sent.system && optimistic != sent.id
  }

  ghost predicate OtherMatch(items: seq<View>, k: nat, m: Message, me: Option<User>) {
    exists j :: 0 <= j < |items| && j != k && Matches(items[j], m, me)
  }

  lemma ResponseInPlace(items: seq<View>, k: nat, optimistic: ID, sent: Message)
    requires InFlight(items, k, optimistic, sent)
    ensures ReplaceOptimistic(items, optimistic, sent) == items[k := MessageView(sent, Outgoing)]
  {
    WithoutAbsent(items, sent.id);
  }

  lemma EchoThenResponseOwn(items: seq<View>, k: nat, optimistic: ID, sent: Message, echo: Message, me: Option<User>)
    requires InFlight(items, k, optimistic, sent) && echo.id == sent.id
    requires FirstPending(items, echo, me) == k
    ensures ReplaceOptimistic(MergeIncoming(items, echo, me), optimistic, sent) == items[k := MessageView(sent, Outgoing)]
  {
    var merged := MergeIncoming(items, echo, me);
    assert forall i :: 0 <= i < |items| ==> !IsChat(items[i], sent.id);
    assert !HasChat(merged, optimistic);
  }

  lemma EchoThenResponseAppended(items: seq<View>, k: nat, optimistic: ID, sent: Message, echo: Message, me: Option<User>)
    requires InFlight(items, k, optimistic, sent) && echo.id == sent.id && !echo.system
    requires FirstPending(items, echo, me) == |items|
    ensures ReplaceOptimistic(MergeIncoming(items, echo, me), optimistic, sent) == items[k := MessageView(sent, Outgoing)]
  {
    var v := MessageView(echo, Incoming);
    var merged := MergeIncoming(items, echo, me);
    assert merged == items + [v] && merged[k] == items[k];
    WithoutConcat(items, [v], sent.id);
    WithoutAbsent(items, sent.id);
    assert Without([v], sent.id) == [];
    assert Without(merged, sent.id) == items;
  }

  lemma ResponseThenEcho(items: seq<View>, k: nat, optimistic: ID, sent: Message, echo: Message, me: Option<User>)
    requires InFlight(items, k, optimistic, sent) && echo.id == sent.id
    ensures var replaced := items[k := MessageView(sent, Outgoing)];
      var both := MergeIncoming(ReplaceOptimistic(items, optimistic, sent), echo, me);
      if OtherMatch(items, k, echo, me)
      then var j := FirstPending(replaced, echo, me);
           j < |items| && j != k && both == replaced[j := Chat(echo, Sent, Outgoing, items[j].viewID)]
      else both == replaced
  {
    ResponseInPlace(items, k, optimistic, sent);
    var replaced := items[k := MessageView(sent, Outgoing)];
    assert IsChat(replaced[k], echo.id);
    assert forall i :: 0 <= i < |items| && i != k ==> replaced[i] == items[i];
  }

  lemma {:induction false} WithoutOne(items: seq<View>, f: nat, id: ID)
    requires f < |items| && IsChat(items[f], id) && forall i :: 0 <= i < |items| && i != f ==> !IsChat(items[i], id)
    ensures |Without(items, id)| == |items| - 1
  {
    if f == 0 {
      assert !HasChat(items[1..], id);
      WithoutAbsent(items[1..], id);
    } else {
      WithoutOne(items[1..], f - 1, id);
    }
  }

  lemma TwinLosesItsPlace(items: seq<View>, k: nat, optimistic: ID, sent: Message, echo: Message, me: Option<User>)
    requires InFlight(items, k, optimistic, sent) && echo.id == sent.id
    requires var f := FirstPending(items, echo, me); f < |items| && f != k
    ensures |ReplaceOptimistic(MergeIncoming(items, echo, me), optimistic, sent)| == |items| - 1
  {
    var f, merged := FirstPending(items, echo, me), MergeIncoming(items, echo, me);
    assert merged[k] == items[k];
    assert forall i :: 0 <= i < |items| ==> !IsChat(items[i], sent.id);
    WithoutOne(merged, f, sent.id);
  }

  /** The response and the echo of a message give exactly the same list in both orders
      if and only if no other in-flight send looks like the echoed message. */
  lemma OrdersAgreeIff(items: seq<View>, k: nat, optimistic: ID, sent: Message, echo: Message, me: Option<User>)
    requires InFlight(items, k, optimistic, sent) && echo.id == sent.id && !echo.system
    ensures MergeIncoming(ReplaceOptimistic(items, optimistic, sent), echo, me)
         == ReplaceOptimistic(MergeIncoming(items, echo, me), optimistic, sent)
       <==> !OtherMatch(items, k, echo, me)
  {
    ResponseThenEcho(items, k, optimistic, sent, echo, me);
    var f := FirstPending(items, echo, me);
    if f == |items| {
      EchoThenResponseAppended(items, k, optimistic, sent, echo, me);
    } else if f == k {
      EchoThenResponseOwn(items, k, optimistic, sent, echo, me);
    } else {
      TwinLosesItsPlace(items, k, optimistic, sent, echo, me);
    }
  }

  // ----- Unique ids -----

  ghost predicate UniqueIds(items: seq<View>) {
    forall i, j :: 0 <= i < j < |items| && items[i].Chat? && items[j].Chat? ==> items[i].message.id != items[j].message.id
  }

  // An entry other than the `k`th has this id.
  predicate ElsewhereToo(items: seq<View>, k: nat, id: ID) {
    exists i :: 0 <= i < |items| && i != k && IsChat(items[i], id)
  }

  // What keeps ids unique: random ids are new, a loaded list has no id twice, and an echo
  // takes a pending entry only if its message is not shown elsewhere already.
  predicate Clean(s: Session, e: Event) {
    match e
    case Begin(o, text, _) => s.group.None? || s.me.None? || text == "" || !HasChat(s.items, o)
    case Echo(m) =>
      s.group == Some(m.group) ==>
        var k := FirstPending(s.items, m, s.me);
        k < |s.items| ==> !ElsewhereToo(s.items, k, m.id)
    case Open(_, messages) =>
      forall i, j :: 0 <= i < j < |messages| && !messages[i].system && !messages[j].system ==> messages[i].id != messages[j].id
    case _ => true
  }

  lemma {:induction false} WithoutSubset(items: seq<View>, id: ID)
    ensures forall x :: x in Without(items, id) ==> x in items
  {
    if items != [] {
      WithoutSubset(items[1..], id);
    }
  }

  lemma {:induction false} WithoutKeepsUnique(items: seq<View>, id: ID)
    requires UniqueIds(items)
    ensures UniqueIds(Without(items, id)) && !HasChat(Without(items, id), id)
  {
    if items != [] {
      var tail := items[1..];
      WithoutKeepsUnique(tail, id);
      WithoutSubset(tail, id);
      var kept := Without(tail, id);
      forall i | 0 <= i < |kept| && kept[i].Chat? && items[0].Chat?
        ensures kept[i].message.id != items[0].message.id
      {
        assert kept[i] in kept && kept[i] in tail;
        var j :| 0 <= j < |tail| && tail[j] == kept[i];
        assert items[j + 1] == kept[i];
      }
    }
  }

  // Giving all entries of one id a message whose id no other entry has.
  lemma ReplaceKeepsUnique(items: seq<View>, id: ID, v: View)
    requires UniqueIds(items) && (v.Chat? ==> v.message.id == id || !HasChat(items, v.message.id))
    ensures UniqueIds(Replace(items, id, v))
  {
    var r := Replace(items, id, v);
    forall i, j | 0 <= i < j < |r| && r[i].Chat? && r[j].Chat?
      ensures r[i].message.id != r[j].message.id
    {
      assert !(IsChat(items[i], id) && IsChat(items[j], id));
      assert v.Chat? && v.message.id != id ==> !IsChat(items[i], v.message.id) && !IsChat(items[j], v.message.id);
    }
  }

  /** A response keeps ids unique whatever the list holds. */
  lemma ResponseKeepsUnique(items: seq<View>, optimistic: ID, sent: Message)
    requires UniqueIds(items)
    ensures UniqueIds(ReplaceOptimistic(items, optimistic, sent))
  {
    WithoutKeepsUnique(items, sent.id);
    if HasChat(items, optimistic) {
      ReplaceKeepsUnique(Without(items, sent.id), optimistic, MessageView(sent, Outgoing));
    } else {
      ReplaceKeepsUnique(items, sent.id, MessageView(sent, Outgoing));
    }
  }

  /** An echo keeps ids unique if and only if it does not take a pending entry while its
      message is shown elsewhere. */
  lemma EchoKeepsUniqueIff(items: seq<View>, m: Message, me: Option<User>)
    requires UniqueIds(items)
    ensures var k := FirstPending(items, m, me);
      UniqueIds(MergeIncoming(items, m, me)) <==> !(k < |items| && ElsewhereToo(items, k, m.id))
  {
    var k, merged := FirstPending(items, m, me), MergeIncoming(items, m, me);
    if k < |items| {
      if i :| 0 <= i < |items| && i != k && IsChat(items[i], m.id) {
        assert merged[i] == items[i] && merged[k].message == m;
      } else {
        assert forall i :: 0 <= i < |items| && i != k ==> merged[i] == items[i] && !IsChat(items[i], m.id);
      }
    } else if !HasChat(items, m.id) {
      assert forall i :: 0 <= i < |items| ==> !IsChat(items[i], m.id);
    }
  }

  lemma OpenIsUniqueIff(messages: seq<Message>)
    ensures UniqueIds(Opened(messages)) <==>
      forall i, j :: 0 <= i < j < |messages| && !messages[i].system && !messages[j].system ==> messages[i].id != messages[j].id
  {
    var items := Opened(messages);
    assert forall i :: 0 <= i < |messages| ==> items[i].Chat? == !messages[i].system && (items[i].Chat? ==> items[i].message == messages[i]);
  }

  lemma BeginIsUniqueIff(items: seq<View>, v: View)
    requires UniqueIds(items) && v.Chat?
    ensures UniqueIds(items + [v]) <==> !HasChat(items, v.message.id)
  {
    var more := items + [v];
    assert more[|items|] == v;
    if i :| 0 <= i < |items| && IsChat(items[i], v.message.id) {
      assert more[i] == items[i];
    } else {
      assert forall i :: 0 <= i < |items| ==> !IsChat(items[i], v.message.id);
    }
  }

  lemma CleanStep(s: Session, e: Event)
    requires UniqueIds(s.items)
    ensures UniqueIds(Apply(s, e).items) <==> Clean(s, e)
  {
    match e
    case Begin(o, text, createdAt) =>
      if s.group.Some? && s.me.Some? && text != "" {
        BeginIsUniqueIff(s.items, Pending(o, s.group.value, s.me.value, text, createdAt));
      }
    case Response(o, sent) => ResponseKeepsUnique(s.items, o, sent);
    case Echo(m) => EchoKeepsUniqueIff(s.items, m, s.me);
    case Delete(id) => WithoutKeepsUnique(s.items, id);
    case Open(_, messages) => OpenIsUniqueIff(messages);
    case _ =>
  }

  function Play(s: Session, es: seq<Event>): Session
    decreases |es|
  {
    if es == [] then s else Play(Apply(s, es[0]), es[1..])
  }

  ghost predicate AlwaysUnique(s: Session, es: seq<Event>)
    decreases |es|
  {
    UniqueIds(s.items) && (es == [] || AlwaysUnique(Apply(s, es[0]), es[1..]))
  }

  predicate AllClean(s: Session, es: seq<Event>)
    decreases |es|
  {
    es == [] || (Clean(s, es[0]) && AllClean(Apply(s, es[0]), es[1..]))
  }

  /** Through every interleaving of sends, responses, failures, echoes (also repeated
      ones), foreign messages, deletions, receipts, profile changes and changes of group,
      chat ids stay unique if and only if every step is clean. */
  lemma {:induction false} IdsStayUniqueIff(s: Session, es: seq<Event>)
    requires UniqueIds(s.items)
    ensures AlwaysUnique(s, es) <==> AllClean(s, es)
    decreases |es|
  {
    if es != [] {
      CleanStep(s, es[0]);
      if Clean(s, es[0]) {
        IdsStayUniqueIff(Apply(s, es[0]), es[1..]);
      }
    }
  }

  /** The step that is not clean does occur: the echo of a message arrives late, when the
      same text has been sent again. Two entries then show the first message. */
  lemma LateEchoDoubles(me: User, group: ID, text: string, at: string)
    requires text != ""
    ensures var m := Message("msg_1", group, false, "", me, text, at, false);
      !UniqueIds(Play(Session([], Some(group), Some(me)), [Begin("p1", text, at), Response("p1", m), Begin("p2", text, at), Echo(m)]).items)
  {
    var m := Message("msg_1", group, false, "", me, text, at, false);
    var s0 := Session([], Some(group), Some(me));
    var first, second := Pending("p1", group, me, text, at), Pending("p2", group, me, text, at);
    var s1 := Apply(s0, Begin("p1", text, at));
    assert s1.items == [first];
    assert InFlight(s1.items, 0, "p1", m);
    ResponseInPlace(s1.items, 0, "p1", m);
    var s2 := Apply(s1, Response("p1", m));
    assert s2.items == [MessageView(m, Outgoing)];
    var s3 := Apply(s2, Begin("p2", text, at));
    assert s3.items == [MessageView(m, Outgoing), second];
    assert UniqueIds(s3.items) && FirstPending(s3.items, m, s3.me) == 1 && IsChat(s3.items[0], "msg_1");
    EchoKeepsUniqueIff(s3.items, m, s3.me);
    PlayFour(s0, Begin("p1", text, at), Response("p1", m), Begin("p2", text, at), Echo(m));
  }

  /** Twins do arise: the same text is sent twice, and the message of the second send comes
      by its response and its echo. The two orders end in different lists. */
  lemma TwinsDisagree(me: User, group: ID, text: string, at: string)
    requires text != ""
    ensures var m := Message("msg_2", group, false, "", me, text, at, false);
      var s := Session([], Some(group), Some(me));
      Play(s, [Begin("p1", text, at), Begin("p2", text, at), Response("p2", m), Echo(m)])
      != Play(s, [Begin("p1", text, at), Begin("p2", text, at), Echo(m), Response("p2", m)])
  {
    var m := Message("msg_2", group, false, "", me, text, at, false);
    var s0 := Session([], Some(group), Some(me));
    var first, second := Pending("p1", group, me, text, at), Pending("p2", group, me, text, at);
    var s2 := Apply(Apply(s0, Begin("p1", text, at)), Begin("p2", text, at));
    assert s2.items == [first, second];
    assert InFlight(s2.items, 1, "p2", m);
    assert Matches(s2.items[0], m, s2.me);
    OrdersAgreeIff(s2.items, 1, "p2", m, m, s2.me);
    PlayFour(s0, Begin("p1", text, at), Begin("p2", text, at), Response("p2", m), Echo(m));
    PlayFour(s0, Begin("p1", text, at), Begin("p2", text, at), Echo(m), Response("p2", m));
  }

  lemma PlayFour(s: Session, a: Event, b: Event, c: Event, d: Event)
    ensures Play(s, [a, b, c, d]) == Apply(Apply(Apply(Apply(s, a), b), c), d)
  {
    PlayHead(s, a, [b, c, d]);
    PlayHead(Apply(s, a), b, [c, d]);
    PlayHead(Apply(Apply(s, a), b), c, [d]);
    PlayHead(Apply(Apply(Apply(s, a), b), c), d, []);
  }

  lemma PlayHead(s: Session, e: Event, rest: seq<Event>)
    ensures Play(s, [e] + rest) == Play(Apply(s, e), rest)
  {
    assert ([e] + rest)[1..] == rest;
  }

  /** Nor is the sender of an echo compared: somebody else's message with the text of my
      pending entry takes that entry, and my response then finds none and shows nothing. */
  lemma ForeignTakesOver(items: seq<View>, k: nat, optimistic: ID, sent: Message, foreign: Message, me: Option<User>)
    requires InFlight(items, k, optimistic, sent) && FirstPending(items, foreign, me) == k
    requires foreign.id != sent.id && foreign.id != optimistic
    ensures var shown := ReplaceOptimistic(MergeIncoming(items, foreign, me), optimistic, sent);
      |shown| == |items| && IsChat(shown[k], foreign.id) && !HasChat(shown, sent.id)
  {
    var merged := MergeIncoming(items, foreign, me);
    assert forall i :: 0 <= i < |items| ==> !IsChat(items[i], sent.id);
    assert forall i :: 0 <= i < |items| ==> !IsChat(merged[i], sent.id) && !IsChat(merged[i], optimistic);
    assert !HasChat(merged, optimistic);
    assert Replace(merged, sent.id, MessageView(sent, Outgoing)) == merged;
  }

  // An echo takes the entry of `optimistic`.
  predicate Takes(s: Session, e: Event, optimistic: ID) {
    && e.Echo? && s.group == Some(e.message.group)
    && var k := FirstPending(s.items, e.message, s.me);
       k < |s.items| && IsChat(s.items[k], optimistic)
  }

  predicate NeverTaken(s: Session, es: seq<Event>, optimistic: ID)
    decreases |es|
  {
    es == [] || (!Takes(s, es[0], optimistic) && NeverTaken(Apply(s, es[0]), es[1..], optimistic))
  }

  // An event about other messages and other sends, whatever their text and author.
  predicate Elsewhere(e: Event, optimistic: ID, sent: Message) {
    match e
    case Begin(o, _, _) => o != optimistic && o != sent.id
    case Response(o, m) => o != optimistic && m.id != sent.id && m.id != optimistic
    case Failure(o) => o != optimistic
    case Echo(m) => m.id != sent.id && m.id != optimistic
    case Delete(id) => id != sent.id && id != optimistic
    case Close => false
    case Open(_, _) => false
    case _ => true
  }

  predicate AllElsewhere(es: seq<Event>, optimistic: ID, sent: Message) {
    forall i :: 0 <= i < |es| ==> Elsewhere(es[i], optimistic, sent)
  }

  ghost predicate AtMostOne(items: seq<View>, id: ID) {
    forall i, j :: 0 <= i < j < |items| ==> !(IsChat(items[i], id) && IsChat(items[j], id))
  }

  lemma {:induction false} WithoutAtMostOne(items: seq<View>, gone: ID, id: ID)
    requires AtMostOne(items, id)
    ensures AtMostOne(Without(items, gone), id)
  {
    if items != [] {
      var tail := items[1..];
      WithoutAtMostOne(tail, gone, id);
      WithoutSubset(tail, gone);
      var rest := Without(tail, gone);
      forall i | 0 <= i < |rest| && IsChat(items[0], id)
        ensures !IsChat(rest[i], id)
      {
        assert rest[i] in rest && rest[i] in tail;
        var j :| 0 <= j < |tail| && tail[j] == rest[i];
        assert items[j + 1] == rest[i];
      }
    }
  }

  // Entries that keep their ids, or get one other than `id`.
  lemma SameHas(items: seq<View>, after: seq<View>, id: ID)
    requires |items| == |after| && forall i :: 0 <= i < |items| ==> IsChat(after[i], id) == IsChat(items[i], id)
    ensures HasChat(after, id) == HasChat(items, id) && (AtMostOne(items, id) ==> AtMostOne(after, id))
  {
  }

  lemma OneMoreHas(items: seq<View>, v: View, id: ID)
    requires !IsChat(v, id)
    ensures HasChat(items + [v], id) == HasChat(items, id) && (AtMostOne(items, id) ==> AtMostOne(items + [v], id))
  {
    HasConcat(items, [v], id);
    var more := items + [v];
    assert forall i :: 0 <= i < |items| ==> more[i] == items[i];
  }

  lemma ResponseElsewhere(items: seq<View>, o: ID, m: Message, id: ID)
    requires m.id != id && o != id
    ensures HasChat(ReplaceOptimistic(items, o, m), id) == HasChat(items, id)
    ensures AtMostOne(items, id) ==> AtMostOne(ReplaceOptimistic(items, o, m), id)
  {
    var v := MessageView(m, Outgoing);
    WithoutHas(items, m.id, id);
    if AtMostOne(items, id) {
      WithoutAtMostOne(items, m.id, id);
    }
    SameHas(Without(items, m.id), Replace(Without(items, m.id), o, v), id);
    SameHas(items, Replace(items, m.id, v), id);
  }

  // An echo of another message drops exactly the entry that it takes.
  lemma EchoTakes(items: seq<View>, m: Message, me: Option<User>, id: ID)
    requires m.id != id && AtMostOne(items, id)
    ensures var k := FirstPending(items, m, me);
      && (HasChat(MergeIncoming(items, m, me), id) <==> HasChat(items, id) && !(k < |items| && IsChat(items[k], id)))
      && AtMostOne(MergeIncoming(items, m, me), id)
  {
    var k, merged := FirstPending(items, m, me), MergeIncoming(items, m, me);
    if k < |items| {
      assert forall i :: 0 <= i < |items| && i != k ==> merged[i] == items[i];
      assert !IsChat(merged[k], id);
      if HasChat(items, id) && !IsChat(items[k], id) {
        SameHas(items, merged, id);
      }
    } else if !HasChat(items, m.id) {
      OneMoreHas(items, MessageView(m, Incoming), id);
    }
  }

  // A response of its own send meets its entry, or shows nothing.
  lemma ResponseShowsIff(items: seq<View>, o: ID, sent: Message)
    requires !HasChat(items, sent.id) && !sent.system && o != sent.id
    ensures HasChat(ReplaceOptimistic(items, o, sent), sent.id) <==> HasChat(items, o)
  {
    var v := MessageView(sent, Outgoing);
    WithoutAbsent(items, sent.id);
    if HasChat(items, o) {
      var i :| 0 <= i < |items| && IsChat(items[i], o);
      assert IsChat(Replace(items, o, v)[i], sent.id);
    } else {
      assert forall i :: 0 <= i < |items| ==> !IsChat(items[i], sent.id);
      assert Replace(items, sent.id, v) == items;
    }
  }

  // How one event about other messages bears on the entry of `id`.
  lemma ElsewhereStep(s: Session, e: Event, optimistic: ID, sent: Message, id: ID)
    requires Elsewhere(e, optimistic, sent) && id in {optimistic, sent.id} && AtMostOne(s.items, id)
    requires id == sent.id ==> !HasChat(s.items, id)
    ensures AtMostOne(Apply(s, e).items, id)
    ensures HasChat(Apply(s, e).items, id) <==> HasChat(s.items, id) && !Takes(s, e, id)
  {
    var items := Apply(s, e).items;
    match e
    case Begin(o, text, createdAt) =>
      if s.group.Some? && s.me.Some? && text != "" {
        OneMoreHas(s.items, Pending(o, s.group.value, s.me.value, text, createdAt), id);
      }
    case Response(o, m) =>
      if o != id {
        ResponseElsewhere(s.items, o, m, id);
      } else {
        SameHas(s.items, Replace(s.items, m.id, MessageView(m, Outgoing)), id);
      }
    case Echo(m) =>
      if s.group == Some(m.group) {
        EchoTakes(s.items, m, s.me, id);
      }
    case Delete(other) =>
      WithoutHas(s.items, other, id);
      WithoutAtMostOne(s.items, other, id);
    case Close => assert false;
    case Open(_, _) => assert false;
    case _ => SameHas(s.items, items, id);
  }

  lemma {:induction false} RunElsewhere(s: Session, optimistic: ID, sent: Message, es: seq<Event>)
    requires AllElsewhere(es, optimistic, sent)
    requires AtMostOne(s.items, optimistic) && !HasChat(s.items, sent.id)
    ensures HasChat(Play(s, es).items, optimistic) <==> HasChat(s.items, optimistic) && NeverTaken(s, es, optimistic)
    ensures !HasChat(Play(s, es).items, sent.id)
    decreases |es|
  {
    if es != [] {
      assert Elsewhere(es[0], optimistic, sent);
      assert forall i :: 0 <= i < |es[1..]| ==> es[1..][i] == es[i + 1];
      var t := Apply(s, es[0]);
      ElsewhereStep(s, es[0], optimistic, sent, optimistic);
      ElsewhereStep(s, es[0], optimistic, sent, sent.id);
      RunElsewhere(t, optimistic, sent, es[1..]);
      if !HasChat(t.items, optimistic) && HasChat(s.items, optimistic) {
        assert Takes(s, es[0], optimistic);
      }
    }
  }

  /** After any run of events about other messages, be they foreign messages or other sends
      of mine with the same text, the response of a send shows its message if and only if
      no echo has taken the pending entry. */
  lemma ShownIffNeverTaken(s: Session, k: nat, optimistic: ID, sent: Message, es: seq<Event>)
    requires InFlight(s.items, k, optimistic, sent) && AllElsewhere(es, optimistic, sent)
    ensures HasChat(Apply(Play(s, es), Response(optimistic, sent)).items, sent.id) <==> NeverTaken(s, es, optimistic)
  {
    RunElsewhere(s, optimistic, sent, es);
    ResponseShowsIff(Play(s, es).items, optimistic, sent);
  }

  // Entries of this id have this text.
  ghost predicate HasText(items: seq<View>, id: ID, text: string) {
    forall i :: 0 <= i < |items| && IsChat(items[i], id) ==> items[i].message.body == text
  }

  lemma {:induction false} WithoutText(items: seq<View>, gone: ID, id: ID, text: string)
    requires HasText(items, id, text)
    ensures HasText(Without(items, gone), id, text)
  {
    if items != [] {
      assert forall i :: 0 <= i < |items[1..]| ==> items[1..][i] == items[i + 1];
      WithoutText(items[1..], gone, id, text);
    }
  }

  lemma TextStep(s: Session, e: Event, optimistic: ID, sent: Message, text: string)
    requires Elsewhere(e, optimistic, sent) && HasText(s.items, optimistic, text)
    ensures HasText(Apply(s, e).items, optimistic, text)
  {
    match e
    case Response(_, m) => WithoutText(s.items, m.id, optimistic, text);
    case Delete(id) => WithoutText(s.items, id, optimistic, text);
    case _ =>
  }

  lemma {:induction false} TextNeverTaken(s: Session, es: seq<Event>, optimistic: ID, sent: Message, text: string)
    requires AllElsewhere(es, optimistic, sent) && HasText(s.items, optimistic, text)
    requires forall i :: 0 <= i < |es| && es[i].Echo? ==> es[i].message.body != text
    ensures NeverTaken(s, es, optimistic)
    decreases |es|
  {
    if es != [] {
      assert Elsewhere(es[0], optimistic, sent);
      assert forall i :: 0 <= i < |es[1..]| ==> es[1..][i] == es[i + 1];
      TextStep(s, es[0], optimistic, sent, text);
      TextNeverTaken(Apply(s, es[0]), es[1..], optimistic, sent, text);
    }
  }

  /** Only the same text can take a pending entry: after any run of events about other
      messages in which no echo has its text, the response shows the message. */
  lemma OtherTextsNeverTake(s: Session, k: nat, optimistic: ID, sent: Message, es: seq<Event>)
    requires InFlight(s.items, k, optimistic, sent) && AllElsewhere(es, optimistic, sent)
    requires forall i :: 0 <= i < |es| && es[i].Echo? ==> es[i].message.body != s.items[k].message.body
    ensures HasChat(Apply(Play(s, es), Response(optimistic, sent)).items, sent.id)
  {
    TextNeverTaken(s, es, optimistic, sent, s.items[k].message.body);
    ShownIffNeverTaken(s, k, optimistic, sent, es);
  }

  /** It does happen: I send a text, somebody else's message with the same text arrives
      first, and my response leaves me without my message. */
  lemma TakeOverArises(me: User, other: User, group: ID, text: string, at: string)
    requires text != "" && me != other
    ensures var mine := Message("msg_1", group, false, "", me, text, at, false);
      var theirs := Message("msg_2", group, false, "", other, text, at, false);
      var items := Play(Session([], Some(group), Some(me)), [Begin("p1", text, at), Echo(theirs), Response("p1", mine)]).items;
      !HasChat(items, "msg_1") && |items| == 1 && items[0].Chat? && items[0].message == theirs
  {
    var mine := Message("msg_1", group, false, "", me, text, at, false);
    var theirs := Message("msg_2", group, false, "", other, text, at, false);
    var s0 := Session([], Some(group), Some(me));
    var s1 := Apply(s0, Begin("p1", text, at));
    var first := Pending("p1", group, me, text, at);
    assert s1.items == [first] && InFlight(s1.items, 0, "p1", mine);
    var s2 := Apply(s1, Echo(theirs));
    assert FirstPending(s1.items, theirs, s1.me) == 0;
    assert s2.items == [Chat(theirs, Sent, Outgoing, first.viewID)];
    ForeignTakesOver(s1.items, 0, "p1", mine, theirs, s1.me);
    assert Replace(s2.items, "msg_1", MessageView(mine, Outgoing)) == s2.items;
    PlayHead(s0, Begin("p1", text, at), [Echo(theirs), Response("p1", mine)]);
    PlayHead(s1, Echo(theirs), [Response("p1", mine)]);
    PlayHead(s2, Response("p1", mine), []);
  }

  // ----- Every interleaving: stable positions -----

  // The message that the server creates for each send, by its optimistic id.
  type Server = map<ID, Message>

  ghost predicate Coherent(server: Server) {
    && (forall o :: o in server ==> server[o].id !in server)
    && (forall o, q :: o in server && q in server && o != q ==> server[o].id != server[q].id)
  }

  // The id that the message of a chat entry has or will have.
  function Key(server: Server, item: View): ID
    requires item.Chat?
  {
    if item.status == Sending && item.message.id in server then server[item.message.id].id else item.message.id
  }

  function Keys(server: Server, items: seq<View>): seq<ID> {
    if items == [] then []
    else (if items[0].Chat? then [Key(server, items[0])] else []) + Keys(server, items[1..])
  }

  ghost predicate UniqueKeys(server: Server, items: seq<View>) {
    forall i, j :: 0 <= i < j < |items| && items[i].Chat? && items[j].Chat? ==> Key(server, items[i]) != Key(server, items[j])
  }

  // A pending entry shows what its message will be.
  ghost predicate Promises(server: Server, item: View) {
    item.Chat? && item.status == Sending ==>
      && item.message.id in server
      && var m := server[item.message.id];
         item.message.group == m.group && item.message.author.id == m.author.id && item.message.body == m.body
  }

  ghost predicate Sound(server: Server, s: Session) {
    && UniqueIds(s.items) && UniqueKeys(server, s.items)
    && forall i :: 0 <= i < |s.items| ==> Promises(server, s.items[i])
  }

  // What the network and the random ids guarantee. The one real assumption is in Echo:
  // no in-flight send other than the message's own looks like the echoed message.
  ghost predicate Legal(server: Server, s: Session, e: Event) {
    match e
    case Begin(o, text, _) =>
      && o in server && s.group == Some(server[o].group) && text == server[o].body
      && s.me.Some? && s.me.value.id == server[o].author.id
      && forall i :: 0 <= i < |s.items| && s.items[i].Chat? ==>
           s.items[i].message.id != o && Key(server, s.items[i]) != server[o].id
    case Response(o, sent) =>
      && o in server && sent.id == server[o].id && !sent.system
      && forall i :: 0 <= i < |s.items| && IsChat(s.items[i], o) ==> s.items[i].status == Sending
    case Failure(o) => o in server
    case Echo(m) =>
      && m.id !in server
      && (s.group == Some(m.group) ==> forall i :: 0 <= i < |s.items| && s.items[i].Chat? && s.items[i].status == Sending ==>
           (Matches(s.items[i], m, s.me) <==> Key(server, s.items[i]) == m.id))
    case Open(_, messages) =>
      && (forall i, j :: 0 <= i < j < |messages| ==> messages[i].id != messages[j].id)
      && (forall i :: 0 <= i < |messages| ==> messages[i].id !in server)
    case _ => true
  }

  lemma {:induction false} KeysUpdate(server: Server, items: seq<View>, k: nat, v: View)
    requires k < |items| && items[k].Chat? && v.Chat? && Key(server, v) == Key(server, items[k])
    ensures Keys(server, items[k := v]) == Keys(server, items)
  {
    if k > 0 {
      assert items[k := v][1..] == items[1..][k - 1 := v];
      KeysUpdate(server, items[1..], k - 1, v);
    } else {
      assert items[0 := v][1..] == items[1..];
    }
  }

  lemma {:induction false} KeysConcat(server: Server, a: seq<View>, b: seq<View>)
    ensures Keys(server, a + b) == Keys(server, a) + Keys(server, b)
  {
    if a == [] {
      assert a + b == b;
    } else {
      assert (a + b)[1..] == a[1..] + b;
      KeysConcat(server, a[1..], b);
    }
  }

  // Under the invariant a response changes one entry in place, if any.
  lemma ResponseStep(server: Server, s: Session, o: ID, sent: Message) returns (k: nat)
    requires Coherent(server) && Sound(server, s) && Legal(server, s, Response(o, sent))
    ensures k <= |s.items|
    ensures ReplaceOptimistic(s.items, o, sent) == if k < |s.items| then s.items[k := MessageView(sent, Outgoing)] else s.items
    ensures k < |s.items| ==> s.items[k].Chat? && Key(server, s.items[k]) == sent.id
  {
    if HasChat(s.items, o) {
      k :| 0 <= k < |s.items| && IsChat(s.items[k], o);
      forall i | 0 <= i < |s.items|
        ensures !IsChat(s.items[i], sent.id)
      {
        assert i != k && s.items[i].Chat? ==> Key(server, s.items[i]) != Key(server, s.items[k]);
        assert sent.id !in server;
      }
      ResponseInPlace(s.items, k, o, sent);
    } else if HasChat(s.items, sent.id) {
      k :| 0 <= k < |s.items| && IsChat(s.items[k], sent.id);
    } else {
      k := |s.items|;
    }
  }

  // Replacing an entry by a settled one with the same key keeps the invariant.
  lemma SettleKeepsSound(server: Server, s: Session, k: nat, v: View)
    requires Coherent(server) && Sound(server, s) && k < |s.items| && s.items[k].Chat?
    requires v.Chat? && v.status == Sent && v.message.id == Key(server, s.items[k]) && v.message.id !in server
    ensures Sound(server, s.(items := s.items[k := v]))
  {
    forall i | 0 <= i < |s.items| && i != k && s.items[i].Chat?
      ensures s.items[i].message.id != v.message.id && Key(server, s.items[i]) != v.message.id
    {
      assert Key(server, s.items[i]) != Key(server, s.items[k]);
    }
  }

  // Appending an entry whose id and key are new keeps the invariant.
  lemma AppendKeepsSound(server: Server, s: Session, v: View)
    requires Sound(server, s) && Promises(server, v)
    requires v.Chat? ==> forall i :: 0 <= i < |s.items| && s.items[i].Chat? ==>
      s.items[i].message.id != v.message.id && Key(server, s.items[i]) != Key(server, v)
    ensures Sound(server, s.(items := s.items + [v]))
    ensures Keys(server, s.items + [v]) == if v.Chat? then Keys(server, s.items) + [Key(server, v)] else Keys(server, s.items)
  {
    KeysConcat(server, s.items, [v]);
    assert Keys(server, [v]) == if v.Chat? then [Key(server, v)] else [];
    var more := s.items + [v];
    assert forall i :: 0 <= i < |s.items| ==> more[i] == s.items[i];
    assert more[|s.items|] == v;
  }

  lemma EchoAppends(server: Server, s: Session, m: Message)
    requires Coherent(server) && Sound(server, s) && Legal(server, s, Echo(m)) && s.group == Some(m.group)
    requires FirstPending(s.items, m, s.me) == |s.items| && !HasChat(s.items, m.id)
    ensures Sound(server, s.(items := s.items + [MessageView(m, Incoming)]))
    ensures Keys(server, s.items + [MessageView(m, Incoming)]) == if m.system then Keys(server, s.items) else Keys(server, s.items) + [m.id]
    ensures m.id !in Keys(server, s.items)
  {
    forall i | 0 <= i < |s.items| && s.items[i].Chat?
      ensures s.items[i].message.id != m.id && Key(server, s.items[i]) != m.id
    {
      assert !IsChat(s.items[i], m.id) && !Matches(s.items[i], m, s.me);
    }
    AppendKeepsSound(server, s, MessageView(m, Incoming));
    KeysAbsent(server, s.items, m.id);
  }

  lemma {:induction false} KeysAbsent(server: Server, items: seq<View>, key: ID)
    requires forall i :: 0 <= i < |items| && items[i].Chat? ==> Key(server, items[i]) != key
    ensures key !in Keys(server, items)
  {
    if items != [] {
      KeysAbsent(server, items[1..], key);
    }
  }

  lemma EchoStep(server: Server, s: Session, m: Message)
    requires Coherent(server) && Sound(server, s) && Legal(server, s, Echo(m)) && s.group == Some(m.group)
    ensures var items := MergeIncoming(s.items, m, s.me);
      && Sound(server, s.(items := items))
      && (Keys(server, items) == Keys(server, s.items)
          || (Keys(server, items) == Keys(server, s.items) + [m.id] && m.id !in Keys(server, s.items)))
  {
    var k := FirstPending(s.items, m, s.me);
    if k < |s.items| {
      var v := Chat(m, Sent, Outgoing, s.items[k].viewID);
      SettleKeepsSound(server, s, k, v);
      KeysUpdate(server, s.items, k, v);
    } else if !HasChat(s.items, m.id) {
      EchoAppends(server, s, m);
    }
  }

  lemma {:induction false} WithoutKeepsSound(server: Server, s: Session, id: ID)
    requires Sound(server, s)
    ensures Sound(server, s.(items := Without(s.items, id)))
    decreases |s.items|
  {
    if s.items != [] {
      var tail := s.items[1..];
      WithoutKeepsSound(server, s.(items := tail), id);
      WithoutSubset(tail, id);
      var kept := Without(tail, id);
      forall i | 0 <= i < |kept| && kept[i].Chat? && s.items[0].Chat?
        ensures kept[i].message.id != s.items[0].message.id && Key(server, kept[i]) != Key(server, s.items[0])
      {
        assert kept[i] in kept && kept[i] in tail;
        var j :| 0 <= j < |tail| && tail[j] == kept[i];
        assert s.items[j + 1] == kept[i];
      }
    }
  }

  lemma BeginStep(server: Server, s: Session, e: Event)
    requires Coherent(server) && Sound(server, s) && e.Begin? && Legal(server, s, e)
    ensures Sound(server, Apply(s, e))
    ensures Apply(s, e).items != s.items ==> Keys(server, Apply(s, e).items) == Keys(server, s.items) + [server[e.optimistic].id]
  {
    if s.group.Some? && e.text != "" {
      AppendKeepsSound(server, s, Pending(e.optimistic, s.group.value, s.me.value, e.text, e.createdAt));
    }
  }

  // A map over the entries that keeps ids, status and what pending entries promise.
  lemma MapKeepsSound(server: Server, s: Session, items: seq<View>)
    requires Sound(server, s) && |items| == |s.items|
    requires forall i :: 0 <= i < |items| ==>
      && items[i].Chat? == s.items[i].Chat? && Promises(server, items[i])
      && (items[i].Chat? ==> items[i].message.id == s.items[i].message.id && items[i].status == s.items[i].status)
    ensures Sound(server, s.(items := items))
  {
  }

  lemma FailureStep(server: Server, s: Session, o: ID)
    requires Coherent(server) && Sound(server, s) && o in server
    ensures Sound(server, s.(items := MarkFailed(s.items, o)))
  {
    var items := MarkFailed(s.items, o);
    forall i, j | 0 <= i < j < |items| && items[i].Chat? && items[j].Chat?
      ensures Key(server, items[i]) != Key(server, items[j])
    {
      assert s.items[i].message.id != s.items[j].message.id && Key(server, s.items[i]) != Key(server, s.items[j]);
    }
    forall i | 0 <= i < |items|
      ensures Promises(server, items[i])
    {
      assert Promises(server, s.items[i]);
    }
  }

  lemma SoundStep(server: Server, s: Session, e: Event)
    requires Coherent(server) && Sound(server, s) && Legal(server, s, e)
    ensures Sound(server, Apply(s, e))
  {
    match e
    case Begin(_, _, _) => BeginStep(server, s, e);
    case Response(o, sent) =>
      var k := ResponseStep(server, s, o, sent);
      if k < |s.items| {
        SettleKeepsSound(server, s, k, MessageView(sent, Outgoing));
      }
    case Failure(o) => FailureStep(server, s, o);
    case Echo(m) =>
      if s.group == Some(m.group) {
        EchoStep(server, s, m);
      }
    case Delete(id) => WithoutKeepsSound(server, s, id);
    case Read(id) =>
      assert forall i :: 0 <= i < |s.items| ==> Promises(server, s.items[i]);
      MapKeepsSound(server, s, MarkRead(s.items, id));
    case Profile(user) =>
      assert forall i :: 0 <= i < |s.items| ==> Promises(server, s.items[i]);
      MapKeepsSound(server, s, UpdateProfile(s.items, user));
    case Close =>
    case Open(_, _) =>
  }

  ghost predicate AllLegal(server: Server, s: Session, es: seq<Event>)
    decreases |es|
  {
    es == [] || (Legal(server, s, es[0]) && AllLegal(server, Apply(s, es[0]), es[1..]))
  }

  // What one event may do to the sequence of keys.
  ghost predicate KeysMove(server: Server, s: Session, e: Event) {
    var before, after := Keys(server, s.items), Keys(server, Apply(s, e).items);
    && (e.Response? || e.Read? || e.Profile? ==> after == before)
    && (e.Echo? ==> after == before || (after == before + [e.message.id] && e.message.id !in before))
    && (e.Begin? && e.optimistic in server ==> after == before || after == before + [server[e.optimistic].id])
  }

  lemma {:induction false} SameKeys(server: Server, items: seq<View>, changed: seq<View>)
    requires |items| == |changed|
    requires forall i :: 0 <= i < |items| ==>
      && items[i].Chat? == changed[i].Chat?
      && (items[i].Chat? ==> changed[i].message.id == items[i].message.id && changed[i].status == items[i].status)
    ensures Keys(server, changed) == Keys(server, items)
  {
    if items != [] {
      SameKeys(server, items[1..], changed[1..]);
    }
  }

  /** A message takes the place of its pending entry: neither its response nor its echo
      moves, adds or drops an entry while the send is in the list, and an echo appends
      only a message that is not there yet. */
  lemma MergesKeepPlaces(server: Server, s: Session, e: Event)
    requires Coherent(server) && Sound(server, s) && Legal(server, s, e)
    ensures KeysMove(server, s, e)
  {
    match e
    case Response(o, sent) =>
      var k := ResponseStep(server, s, o, sent);
      if k < |s.items| {
        KeysUpdate(server, s.items, k, MessageView(sent, Outgoing));
      }
    case Echo(m) =>
      if s.group == Some(m.group) {
        EchoStep(server, s, m);
      }
    case Begin(_, _, _) => BeginStep(server, s, e);
    case Read(id) => SameKeys(server, s.items, MarkRead(s.items, id));
    case Profile(user) => SameKeys(server, s.items, UpdateProfile(s.items, user));
    case _ =>
  }

  /** The invariant that this takes holds through every such run. */
  lemma {:induction false} RunIsSound(server: Server, s: Session, es: seq<Event>)
    requires Coherent(server) && Sound(server, s) && AllLegal(server, s, es)
    ensures Sound(server, Play(s, es))
    decreases |es|
  {
    if es != [] {
      SoundStep(server, s, es[0]);
      RunIsSound(server, Apply(s, es[0]), es[1..]);
    }
  }

  predicate Shows(server: Server, item: View, key: ID) {
    item.Chat? && Key(server, item) == key
  }

  // The message with key `a` stands before the one with key `b`, each sent or pending.
  ghost predicate Ahead(server: Server, items: seq<View>, a: ID, b: ID) {
    exists i, j :: 0 <= i < j < |items| && Shows(server, items[i], a) && Shows(server, items[j], b)
  }

  // The entry id stands for another message, as it is and as what its send will become.
  predicate Other(server: Server, id: ID, key: ID) {
    id != key && (id in server ==> server[id].id != key)
  }

  ghost predicate Sole(server: Server, items: seq<View>, key: ID) {
    forall i, j :: 0 <= i < j < |items| ==> !(Shows(server, items[i], key) && Shows(server, items[j], key))
  }

  // An echo of this message takes its pending entry, if there is one, and no other echo
  // takes that. Other entries may be taken by whatever looks like them.
  ghost predicate EchoHeeds(server: Server, items: seq<View>, m: Message, me: Option<User>, key: ID) {
    var k := FirstPending(items, m, me);
    if k < |items| then Key(server, items[k]) == key <==> m.id == key
    else m.id == key ==> forall i :: 0 <= i < |items| && Shows(server, items[i], key) ==> items[i].status != Sending
  }

  // The event is no second send of this message, does not delete it, report its failure or
  // close the list, and does not take its entry. Responses carry the message of their send.
  ghost predicate Heeds(server: Server, s: Session, e: Event, key: ID) {
    match e
    case Begin(o, _, _) => Other(server, o, key)
    case Response(o, sent) =>
      && o in server && sent.id == server[o].id && !sent.system
      && forall i :: 0 <= i < |s.items| && IsChat(s.items[i], o) ==> s.items[i].status == Sending
    case Failure(o) => Other(server, o, key)
    case Echo(m) => m.id !in server && (s.group == Some(m.group) ==> EchoHeeds(server, s.items, m, s.me, key))
    case Delete(id) => Other(server, id, key)
    case Close => false
    case Open(_, _) => false
    case _ => true
  }

  ghost predicate AllHeed(server: Server, s: Session, es: seq<Event>, key: ID)
    decreases |es|
  {
    es == [] || (Heeds(server, s, es[0], key) && AllHeed(server, Apply(s, es[0]), es[1..], key))
  }

  // The entries that show this message are where they were, and no new one is.
  ghost predicate InPlace(server: Server, items: seq<View>, after: seq<View>, key: ID) {
    && |items| <= |after|
    && (forall i :: 0 <= i < |items| ==> (Shows(server, after[i], key) <==> Shows(server, items[i], key)))
    && (forall i :: |items| <= i < |after| ==> !Shows(server, after[i], key))
  }

  ghost predicate Present(server: Server, items: seq<View>, key: ID) {
    exists i :: 0 <= i < |items| && Shows(server, items[i], key)
  }

  lemma AheadInPlace(server: Server, items: seq<View>, after: seq<View>, a: ID, b: ID)
    requires Ahead(server, items, a, b) && InPlace(server, items, after, a) && InPlace(server, items, after, b)
    ensures Ahead(server, after, a, b)
  {
    var i, j :| 0 <= i < j < |items| && Shows(server, items[i], a) && Shows(server, items[j], b);
    assert Shows(server, after[i], a) && Shows(server, after[j], b);
  }

  lemma SoleInPlace(server: Server, items: seq<View>, after: seq<View>, key: ID)
    requires Sole(server, items, key) && InPlace(server, items, after, key)
    ensures Sole(server, after, key)
  {
  }

  lemma {:induction false} WithoutAt(items: seq<View>, id: ID, k: nat) returns (i: nat)
    requires k < |items| && !IsChat(items[k], id)
    ensures i < |Without(items, id)| && Without(items, id)[i] == items[k]
  {
    if k == 0 {
      i := 0;
    } else {
      i := WithoutAt(items[1..], id, k - 1);
      i := if IsChat(items[0], id) then i else i + 1;
    }
  }

  lemma {:induction false} WithoutPair(items: seq<View>, id: ID, k: nat, l: nat) returns (i: nat, j: nat)
    requires k < l < |items| && !IsChat(items[k], id) && !IsChat(items[l], id)
    ensures i < j < |Without(items, id)| && Without(items, id)[i] == items[k] && Without(items, id)[j] == items[l]
  {
    if k == 0 {
      j := WithoutAt(items[1..], id, l - 1);
      i, j := 0, j + 1;
    } else {
      i, j := WithoutPair(items[1..], id, k - 1, l - 1);
      if !IsChat(items[0], id) {
        i, j := i + 1, j + 1;
      }
    }
  }

  lemma WithoutAhead(server: Server, items: seq<View>, id: ID, a: ID, b: ID)
    requires Ahead(server, items, a, b) && Other(server, id, a) && Other(server, id, b)
    ensures Ahead(server, Without(items, id), a, b)
  {
    var k, l :| 0 <= k < l < |items| && Shows(server, items[k], a) && Shows(server, items[l], b);
    var i, j := WithoutPair(items, id, k, l);
    assert Shows(server, Without(items, id)[i], a) && Shows(server, Without(items, id)[j], b);
  }

  lemma {:induction false} WithoutSole(server: Server, items: seq<View>, id: ID, key: ID)
    requires Sole(server, items, key)
    ensures Sole(server, Without(items, id), key)
  {
    if items != [] {
      var tail := items[1..];
      WithoutSole(server, tail, id, key);
      WithoutSubset(tail, id);
      var rest := Without(tail, id);
      forall i | 0 <= i < |rest| && Shows(server, items[0], key)
        ensures !Shows(server, rest[i], key)
      {
        assert rest[i] in rest && rest[i] in tail;
        var j :| 0 <= j < |tail| && tail[j] == rest[i];
        assert items[j + 1] == rest[i];
      }
    }
  }

  lemma EchoInPlace(server: Server, items: seq<View>, m: Message, me: Option<User>, key: ID)
    requires EchoHeeds(server, items, m, me, key) && m.id !in server && Present(server, items, key)
    ensures InPlace(server, items, MergeIncoming(items, m, me), key)
  {
  }

  // The events that leave every entry at its index.
  lemma ChangeInPlace(server: Server, s: Session, e: Event, key: ID)
    requires Heeds(server, s, e, key) && Present(server, s.items, key) && !e.Delete? && !e.Response?
    ensures InPlace(server, s.items, Apply(s, e).items, key)
  {
    if e.Echo? && s.group == Some(e.message.group) {
      EchoInPlace(server, s.items, e.message, s.me, key);
    }
  }

  lemma SubsetSending(items: seq<View>, id: ID, o: ID)
    requires forall i :: 0 <= i < |items| && IsChat(items[i], o) ==> items[i].status == Sending
    ensures forall i :: 0 <= i < |Without(items, id)| && IsChat(Without(items, id)[i], o) ==> Without(items, id)[i].status == Sending
  {
    WithoutSubset(items, id);
    forall i | 0 <= i < |Without(items, id)| && IsChat(Without(items, id)[i], o)
      ensures Without(items, id)[i].status == Sending
    {
      assert Without(items, id)[i] in items;
    }
  }

  // The response of a message finds no other entry of it.
  lemma OwnSettles(server: Server, items: seq<View>, o: ID, sent: Message)
    requires Coherent(server) && o in server && server[o].id == sent.id && HasChat(items, o)
    requires (forall i :: 0 <= i < |items| && IsChat(items[i], o) ==> items[i].status == Sending) && Sole(server, items, sent.id)
    ensures Without(items, sent.id) == items
  {
    var k :| 0 <= k < |items| && IsChat(items[k], o);
    assert Shows(server, items[k], sent.id);
    forall i | 0 <= i < |items|
      ensures !IsChat(items[i], sent.id)
    {
      assert i != k ==> !Shows(server, items[i], sent.id);
    }
    WithoutAbsent(items, sent.id);
  }

  lemma ResponseAhead(server: Server, s: Session, o: ID, sent: Message, a: ID, b: ID)
    requires Coherent(server) && Heeds(server, s, Response(o, sent), a) && Heeds(server, s, Response(o, sent), b)
    requires Sole(server, s.items, a) && Sole(server, s.items, b) && Ahead(server, s.items, a, b)
    ensures Ahead(server, ReplaceOptimistic(s.items, o, sent), a, b)
  {
    var v, rest := MessageView(sent, Outgoing), Without(s.items, sent.id);
    if !HasChat(s.items, o) {
      ReplaceInPlace(server, s.items, o, sent, a);
      ReplaceInPlace(server, s.items, o, sent, b);
      AheadInPlace(server, s.items, Replace(s.items, sent.id, v), a, b);
    } else {
      if sent.id in {a, b} {
        OwnSettles(server, s.items, o, sent);
      } else {
        WithoutAhead(server, s.items, sent.id, a, b);
      }
      SubsetSending(s.items, sent.id, o);
      EntryInPlace(server, rest, o, sent, a);
      EntryInPlace(server, rest, o, sent, b);
      AheadInPlace(server, rest, Replace(rest, o, v), a, b);
    }
  }

  lemma ReplaceInPlace(server: Server, items: seq<View>, o: ID, sent: Message, key: ID)
    requires sent.id !in server && !sent.system
    ensures InPlace(server, items, Replace(items, sent.id, MessageView(sent, Outgoing)), key)
  {
  }

  lemma EntryInPlace(server: Server, items: seq<View>, o: ID, sent: Message, key: ID)
    requires o in server && server[o].id == sent.id && !sent.system
    requires forall i :: 0 <= i < |items| && IsChat(items[i], o) ==> items[i].status == Sending
    ensures InPlace(server, items, Replace(items, o, MessageView(sent, Outgoing)), key)
  {
  }

  lemma ResponseSole(server: Server, s: Session, o: ID, sent: Message, key: ID)
    requires Coherent(server) && Heeds(server, s, Response(o, sent), key) && Sole(server, s.items, key)
    ensures Sole(server, ReplaceOptimistic(s.items, o, sent), key)
  {
    var v, rest := MessageView(sent, Outgoing), Without(s.items, sent.id);
    if !HasChat(s.items, o) {
      ReplaceInPlace(server, s.items, o, sent, key);
      SoleInPlace(server, s.items, Replace(s.items, sent.id, v), key);
    } else {
      WithoutSole(server, s.items, sent.id, key);
      SubsetSending(s.items, sent.id, o);
      EntryInPlace(server, rest, o, sent, key);
      SoleInPlace(server, rest, Replace(rest, o, v), key);
    }
  }

  lemma AheadStep(server: Server, s: Session, e: Event, a: ID, b: ID)
    requires Coherent(server) && Ahead(server, s.items, a, b) && Heeds(server, s, e, a) && Heeds(server, s, e, b)
    requires Sole(server, s.items, a) && Sole(server, s.items, b)
    ensures Ahead(server, Apply(s, e).items, a, b)
  {
    if e.Delete? {
      WithoutAhead(server, s.items, e.id, a, b);
    } else if e.Response? {
      ResponseAhead(server, s, e.optimistic, e.sent, a, b);
    } else {
      ChangeInPlace(server, s, e, a);
      ChangeInPlace(server, s, e, b);
      AheadInPlace(server, s.items, Apply(s, e).items, a, b);
    }
  }

  lemma SoleStep(server: Server, s: Session, e: Event, key: ID)
    requires Coherent(server) && Heeds(server, s, e, key) && Sole(server, s.items, key) && Present(server, s.items, key)
    ensures Sole(server, Apply(s, e).items, key)
  {
    if e.Delete? {
      WithoutSole(server, s.items, e.id, key);
    } else if e.Response? {
      ResponseSole(server, s, e.optimistic, e.sent, key);
    } else {
      ChangeInPlace(server, s, e, key);
      SoleInPlace(server, s.items, Apply(s, e).items, key);
    }
  }

  /** Two messages, pending or sent, keep their order through every run that does not
      delete, fail or close away one of the two and in which no echo takes the pending
      entry of one of them for another message, whatever happens to all other entries. */
  lemma {:induction false} PlacesAreKept(server: Server, s: Session, es: seq<Event>, a: ID, b: ID)
    requires Coherent(server) && AllHeed(server, s, es, a) && AllHeed(server, s, es, b)
    requires Sole(server, s.items, a) && Sole(server, s.items, b) && Ahead(server, s.items, a, b)
    ensures Ahead(server, Play(s, es).items, a, b)
    decreases |es|
  {
    if es != [] {
      SoleStep(server, s, es[0], a);
      SoleStep(server, s, es[0], b);
      AheadStep(server, s, es[0], a, b);
      PlacesAreKept(server, Apply(s, es[0]), es[1..], a, b);
    }
  }

  // ----- The two orders with other events in between -----

  // `a` is `b` with the message of this id shown as `v`.
  ghost predicate Mirrors(a: seq<View>, b: seq<View>, v: View) {
    && v.Chat? && v.status == Sent && |a| == |b|
    && forall i :: 0 <= i < |b| ==> MirrorAt(a[i], b[i], v)
  }

  ghost predicate MirrorAt(x: View, y: View, v: View)
    requires v.Chat?
  {
    if IsChat(y, v.message.id) then x == v && y.status == Sent else x == y
  }

  // An event about other messages, other sends and other people.
  predicate Aside(e: Event, optimistic: ID, sent: Message) {
    match e
    case Begin(o, _, _) => o != optimistic && o != sent.id
    case Response(o, m) => o != optimistic && o != sent.id && m.id != sent.id && m.id != optimistic
    case Failure(o) => o != sent.id
    case Echo(m) => m.id != sent.id && m.id != optimistic
    case Delete(id) => id != sent.id
    case Read(id) => id != sent.id
    case Profile(user) => user.id != sent.author.id
    case Close => false
    case Open(_, _) => false
  }

  predicate AllAside(es: seq<Event>, optimistic: ID, sent: Message) {
    forall i :: 0 <= i < |es| ==> Aside(es[i], optimistic, sent)
  }

  lemma {:induction false} WithoutMirrors(a: seq<View>, b: seq<View>, v: View, id: ID)
    requires Mirrors(a, b, v) && v.message.id != id
    ensures Mirrors(Without(a, id), Without(b, id), v)
  {
    if b != [] {
      assert MirrorAt(a[0], b[0], v);
      assert Mirrors(a[1..], b[1..], v) by {
        forall i | 0 <= i < |b[1..]|
          ensures MirrorAt(a[1..][i], b[1..][i], v)
        {
          assert MirrorAt(a[i + 1], b[i + 1], v);
        }
      }
      WithoutMirrors(a[1..], b[1..], v, id);
      var x, y := Without(a[1..], id), Without(b[1..], id);
      forall i | 0 <= i < |Without(b, id)|
        ensures MirrorAt(Without(a, id)[i], Without(b, id)[i], v)
      {
        if IsChat(b[0], id) {
          assert MirrorAt(x[i], y[i], v);
        } else if i > 0 {
          assert MirrorAt(x[i - 1], y[i - 1], v);
        }
      }
    }
  }

  lemma HasChatMirrors(a: seq<View>, b: seq<View>, v: View, id: ID)
    requires Mirrors(a, b, v)
    ensures HasChat(a, id) == HasChat(b, id)
  {
    assert forall i :: 0 <= i < |b| ==> MirrorAt(a[i], b[i], v) && IsChat(a[i], id) == IsChat(b[i], id);
  }

  lemma ReplaceMirrors(a: seq<View>, b: seq<View>, v: View, id: ID, w: View)
    requires Mirrors(a, b, v) && v.message.id != id && !IsChat(w, v.message.id)
    ensures Mirrors(Replace(a, id, w), Replace(b, id, w), v)
  {
    forall i | 0 <= i < |b|
      ensures MirrorAt(Replace(a, id, w)[i], Replace(b, id, w)[i], v)
    {
      assert MirrorAt(a[i], b[i], v);
    }
  }

  lemma EchoMirrors(a: seq<View>, b: seq<View>, v: View, m: Message, me: Option<User>)
    requires Mirrors(a, b, v) && v.message.id != m.id
    ensures Mirrors(MergeIncoming(a, m, me), MergeIncoming(b, m, me), v)
  {
    assert forall i :: 0 <= i < |b| ==> MirrorAt(a[i], b[i], v) && Matches(a[i], m, me) == Matches(b[i], m, me);
    assert FirstPending(a, m, me) == FirstPending(b, m, me);
    HasChatMirrors(a, b, v, m.id);
  }

  lemma AsideMirrors(s: Session, a: seq<View>, b: seq<View>, e: Event, optimistic: ID, sent: Message)
    requires Mirrors(a, b, Chat(sent, Sent, Outgoing, None)) && Aside(e, optimistic, sent)
    ensures Mirrors(Apply(s.(items := a), e).items, Apply(s.(items := b), e).items, Chat(sent, Sent, Outgoing, None))
  {
    var v := Chat(sent, Sent, Outgoing, None);
    assert forall i :: 0 <= i < |b| ==> MirrorAt(a[i], b[i], v);
    match e
    case Response(o, m) =>
      HasChatMirrors(a, b, v, o);
      WithoutMirrors(a, b, v, m.id);
      ReplaceMirrors(a, b, v, m.id, MessageView(m, Outgoing));
      ReplaceMirrors(Without(a, m.id), Without(b, m.id), v, o, MessageView(m, Outgoing));
    case Echo(m) => EchoMirrors(a, b, v, m, s.me);
    case Delete(id) => WithoutMirrors(a, b, v, id);
    case _ =>
  }

  lemma {:induction false} WithoutHas(items: seq<View>, id: ID, other: ID)
    ensures HasChat(Without(items, id), other) <==> id != other && HasChat(items, other)
  {
    if items != [] {
      WithoutHas(items[1..], id, other);
      var tail, rest := items[1..], Without(items[1..], id);
      assert items == [items[0]] + tail;
      HasConcat([items[0]], tail, other);
      var head := if IsChat(items[0], id) then [] else [items[0]];
      HasConcat(head, rest, other);
      assert HasChat([items[0]], other) == IsChat([items[0]][0], other);
      assert head != [] ==> HasChat(head, other) == IsChat(head[0], other);
    }
  }

  lemma HasConcat(a: seq<View>, b: seq<View>, id: ID)
    ensures HasChat(a + b, id) <==> HasChat(a, id) || HasChat(b, id)
  {
    if HasChat(a, id) {
      var i :| 0 <= i < |a| && IsChat(a[i], id);
      assert IsChat((a + b)[i], id);
    } else if HasChat(b, id) {
      var i :| 0 <= i < |b| && IsChat(b[i], id);
      assert IsChat((a + b)[|a| + i], id);
    }
  }

  lemma ReplaceHas(items: seq<View>, id: ID, v: View, other: ID)
    requires id != other && !IsChat(v, other)
    ensures HasChat(Replace(items, id, v), other) == HasChat(items, other)
  {
    var r := Replace(items, id, v);
    assert forall i :: 0 <= i < |items| ==> IsChat(r[i], other) == IsChat(items[i], other);
  }

  lemma EchoHas(items: seq<View>, m: Message, me: Option<User>, other: ID)
    requires m.id != other
    ensures !HasChat(items, other) ==> !HasChat(MergeIncoming(items, m, me), other)
    ensures HasChat(items, other) && (forall i :: 0 <= i < |items| && IsChat(items[i], other) ==> items[i].status == Sent)
      ==> HasChat(MergeIncoming(items, m, me), other)
  {
    var merged := MergeIncoming(items, m, me);
    assert forall i :: 0 <= i < |items| ==> merged[i] == items[i] || (items[i].Chat? && items[i].status == Sending && IsChat(merged[i], m.id));
    if HasChat(items, other) {
      var i :| 0 <= i < |items| && IsChat(items[i], other);
      assert items[i].status == Sent ==> IsChat(merged[i], other);
    }
  }

  lemma AsideHas(s: Session, e: Event, optimistic: ID, sent: Message, id: ID)
    requires Aside(e, optimistic, sent)
    requires if HasChat(s.items, id) then id == sent.id else id == optimistic
    requires forall i :: 0 <= i < |s.items| && IsChat(s.items[i], id) ==> s.items[i].status == Sent
    ensures HasChat(Apply(s, e).items, id) == HasChat(s.items, id)
  {
    var items := Apply(s, e).items;
    match e
    case Begin(_, _, _) =>
      if items != s.items {
        HasConcat(s.items, items[|s.items|..], id);
      }
    case Response(o, m) =>
      WithoutHas(s.items, m.id, id);
      if o != id {
        ReplaceHas(Without(s.items, m.id), o, MessageView(m, Outgoing), id);
      }
      if m.id != id {
        ReplaceHas(s.items, m.id, MessageView(m, Outgoing), id);
      }
    case Echo(m) => EchoHas(s.items, m, s.me, id);
    case Delete(other) => WithoutHas(s.items, other, id);
    case Close => assert false;
    case Open(_, _) => assert false;
    case _ => assert forall i :: 0 <= i < |items| ==> IsChat(items[i], id) == IsChat(s.items[i], id);
  }

  lemma {:induction false} RunMirrors(s: Session, a: seq<View>, b: seq<View>, es: seq<Event>, optimistic: ID, sent: Message)
    requires Mirrors(a, b, Chat(sent, Sent, Outgoing, None)) && !HasChat(b, optimistic) && HasChat(a, sent.id) && AllAside(es, optimistic, sent)
    ensures var x, y := Play(s.(items := a), es), Play(s.(items := b), es);
      && Mirrors(x.items, y.items, Chat(sent, Sent, Outgoing, None)) && !HasChat(y.items, optimistic) && HasChat(x.items, sent.id)
      && x.group == y.group == s.group && x.me == y.me == s.me
    decreases |es|
  {
    if es != [] {
      assert Aside(es[0], optimistic, sent);
      assert AllAside(es[1..], optimistic, sent) by {
        forall i | 0 <= i < |es[1..]|
          ensures Aside(es[1..][i], optimistic, sent)
        {
          assert es[1..][i] == es[i + 1];
        }
      }
      AsideMirrors(s, a, b, es[0], optimistic, sent);
      assert forall i :: 0 <= i < |a| && IsChat(a[i], sent.id) ==> MirrorAt(a[i], b[i], Chat(sent, Sent, Outgoing, None)) && a[i].status == Sent;
      AsideHas(s.(items := a), es[0], optimistic, sent, sent.id);
      AsideHas(s.(items := b), es[0], optimistic, sent, optimistic);
      var x, y := Apply(s.(items := a), es[0]), Apply(s.(items := b), es[0]);
      RunMirrors(s, x.items, y.items, es[1..], optimistic, sent);
    }
  }

  lemma MirrorsSettle(a: seq<View>, b: seq<View>, optimistic: ID, sent: Message)
    requires Mirrors(a, b, Chat(sent, Sent, Outgoing, None)) && !HasChat(b, optimistic) && !sent.system
    ensures ReplaceOptimistic(b, optimistic, sent) == a
  {
    var v := MessageView(sent, Outgoing);
    assert forall i :: 0 <= i < |b| ==> MirrorAt(a[i], b[i], v);
    assert Replace(b, sent.id, v) == a;
  }

  lemma StartMirrors(items: seq<View>, k: nat, optimistic: ID, sent: Message, own: View)
    requires InFlight(items, k, optimistic, sent) && IsChat(own, sent.id) && own.status == Sent
    ensures var a, b := items[k := Chat(sent, Sent, Outgoing, None)], items[k := own];
      Mirrors(a, b, Chat(sent, Sent, Outgoing, None)) && !HasChat(b, optimistic) && HasChat(a, sent.id)
  {
    var v := Chat(sent, Sent, Outgoing, None);
    var a, b := items[k := v], items[k := own];
    assert forall i :: 0 <= i < |items| && i != k ==> !IsChat(items[i], sent.id) && !IsChat(items[i], optimistic);
    assert Mirrors(a, b, v);
    assert IsChat(a[k], sent.id);
  }

  /** Response first or echo first, with any run of events about other messages in
      between: the two lists end up equal if and only if no pending entry looks like the
      echoed message when it arrives last. */
  lemma OrdersAgreeAcrossEvents(s: Session, k: nat, optimistic: ID, sent: Message, echo: Message, es: seq<Event>)
    requires InFlight(s.items, k, optimistic, sent) && echo.id == sent.id && s.group == Some(echo.group)
    requires FirstPending(s.items, echo, s.me) == k
    requires AllAside(es, optimistic, sent)
    ensures var x := Play(Apply(s, Response(optimistic, sent)), es);
      var y := Play(Apply(s, Echo(echo)), es);
      Apply(x, Echo(echo)) == Apply(y, Response(optimistic, sent))
      <==> forall i :: 0 <= i < |x.items| ==> !Matches(x.items[i], echo, s.me)
  {
    var v := Chat(sent, Sent, Outgoing, None);
    var a, b := s.items[k := v], s.items[k := Chat(echo, Sent, Outgoing, s.items[k].viewID)];
    ResponseInPlace(s.items, k, optimistic, sent);
    StartMirrors(s.items, k, optimistic, sent, b[k]);
    RunMirrors(s, a, b, es, optimistic, sent);
    var x := Play(Apply(s, Response(optimistic, sent)), es);
    var y := Play(Apply(s, Echo(echo)), es);
    assert x == Play(s.(items := a), es) && y == Play(s.(items := b), es);
    MirrorsSettle(x.items, y.items, optimistic, sent);
    assert Apply(y, Response(optimistic, sent)).items == x.items;
    var f := FirstPending(x.items, echo, s.me);
    if f < |x.items| {
      assert MergeIncoming(x.items, echo, s.me)[f].status == Sent;
    }
  }

  // The two ways in which an event about the same message breaks the agreement.

  lemma ReadAfterResponse(items: seq<View>, k: nat, optimistic: ID, sent: Message, echo: Message, me: Option<User>)
    requires InFlight(items, k, optimistic, sent) && echo.id == sent.id && !OtherMatch(items, k, echo, me)
    ensures MergeIncoming(MarkRead(ReplaceOptimistic(items, optimistic, sent), sent.id), echo, me)
         == items[k := Chat(sent.(read := true), Sent, Outgoing, None)]
  {
    assert forall i :: 0 <= i < |items| ==> !IsChat(items[i], sent.id);
    assert forall i :: 0 <= i < |items| && i != k ==> !Matches(items[i], echo, me);
    ResponseInPlace(items, k, optimistic, sent);
    var read := items[k := Chat(sent.(read := true), Sent, Outgoing, None)];
    assert MarkRead(items[k := Chat(sent, Sent, Outgoing, None)], sent.id) == read;
    assert IsChat(read[k], echo.id);
  }

  lemma ReadAfterEcho(items: seq<View>, k: nat, optimistic: ID, sent: Message, echo: Message, me: Option<User>)
    requires InFlight(items, k, optimistic, sent) && echo.id == sent.id && FirstPending(items, echo, me) == k
    ensures ReplaceOptimistic(MarkRead(MergeIncoming(items, echo, me), sent.id), optimistic, sent)
         == items[k := Chat(sent, Sent, Outgoing, None)]
  {
    assert forall i :: 0 <= i < |items| ==> !IsChat(items[i], sent.id);
    var own := Chat(echo.(read := true), Sent, Outgoing, items[k].viewID);
    assert MarkRead(MergeIncoming(items, echo, me), sent.id) == items[k := own];
    assert !HasChat(items[k := own], optimistic);
  }

  /** A read receipt between echo and response is lost unless the response already says
      read; between response and echo it stays. */
  lemma ReadReceiptIsLost(s: Session, k: nat, optimistic: ID, sent: Message, echo: Message)
    requires InFlight(s.items, k, optimistic, sent) && echo.id == sent.id && s.group == Some(echo.group)
    requires FirstPending(s.items, echo, s.me) == k && !OtherMatch(s.items, k, echo, s.me)
    ensures var x := Apply(Apply(Apply(s, Response(optimistic, sent)), Read(sent.id)), Echo(echo));
      var y := Apply(Apply(Apply(s, Echo(echo)), Read(sent.id)), Response(optimistic, sent));
      x == y <==> sent.read
  {
    ReadAfterResponse(s.items, k, optimistic, sent, echo, s.me);
    ReadAfterEcho(s.items, k, optimistic, sent, echo, s.me);
    var x := s.items[k := Chat(sent.(read := true), Sent, Outgoing, None)];
    var y := s.items[k := Chat(sent, Sent, Outgoing, None)];
    assert x[k] == y[k] <==> sent.read;
    assert x == y <==> sent.read;
  }

  lemma PatchesCommute(items: seq<View>, k: nat, v: View, user: User)
    requires k < |items|
    ensures UpdateProfile(items[k := v], user) == UpdateProfile(items, user)[k := Patch(v, user)]
  {
  }

  lemma ProfileAfterResponse(items: seq<View>, k: nat, optimistic: ID, sent: Message, echo: Message, me: Option<User>, user: User)
    requires InFlight(items, k, optimistic, sent) && echo.id == sent.id && !OtherMatch(UpdateProfile(items, user), k, echo, me)
    ensures MergeIncoming(UpdateProfile(ReplaceOptimistic(items, optimistic, sent), user), echo, me)
         == UpdateProfile(items, user)[k := Patch(Chat(sent, Sent, Outgoing, None), user)]
  {
    ResponseInPlace(items, k, optimistic, sent);
    PatchesCommute(items, k, Chat(sent, Sent, Outgoing, None), user);
    var patched := UpdateProfile(items, user)[k := Patch(Chat(sent, Sent, Outgoing, None), user)];
    assert forall i :: 0 <= i < |items| && i != k ==> !Matches(UpdateProfile(items, user)[i], echo, me);
    assert IsChat(patched[k], echo.id);
  }

  lemma ProfileAfterEcho(items: seq<View>, k: nat, optimistic: ID, sent: Message, echo: Message, me: Option<User>, user: User)
    requires InFlight(items, k, optimistic, sent) && echo.id == sent.id && FirstPending(items, echo, me) == k
    ensures ReplaceOptimistic(UpdateProfile(MergeIncoming(items, echo, me), user), optimistic, sent)
         == UpdateProfile(items, user)[k := Chat(sent, Sent, Outgoing, None)]
  {
    var own := Chat(echo, Sent, Outgoing, items[k].viewID);
    PatchesCommute(items, k, own, user);
    var patched := UpdateProfile(items, user)[k := Patch(own, user)];
    assert forall i :: 0 <= i < |items| ==> !IsChat(items[i], sent.id);
    assert forall i :: 0 <= i < |items| && i != k ==> !IsChat(patched[i], sent.id) && !IsChat(patched[i], optimistic);
    assert !HasChat(patched, optimistic);
    assert Replace(patched, sent.id, Chat(sent, Sent, Outgoing, None)) == UpdateProfile(items, user)[k := Chat(sent, Sent, Outgoing, None)];
  }

  /** A change of a profile between echo and response is lost on the sent message if it is
      its author's, unless the response has the new profile already. */
  lemma ProfileChangeIsLost(s: Session, k: nat, optimistic: ID, sent: Message, echo: Message, user: User)
    requires InFlight(s.items, k, optimistic, sent) && echo.id == sent.id && s.group == Some(echo.group)
    requires FirstPending(s.items, echo, s.me) == k && !OtherMatch(UpdateProfile(s.items, user), k, echo, s.me)
    ensures var x := Apply(Apply(Apply(s, Response(optimistic, sent)), Profile(user)), Echo(echo));
      var y := Apply(Apply(Apply(s, Echo(echo)), Profile(user)), Response(optimistic, sent));
      x == y <==> (sent.author.id == user.id ==> sent.author == user)
  {
    ProfileAfterResponse(s.items, k, optimistic, sent, echo, s.me, user);
    ProfileAfterEcho(s.items, k, optimistic, sent, echo, s.me, user);
    var x := UpdateProfile(s.items, user)[k := Patch(Chat(sent, Sent, Outgoing, None), user)];
    var y := UpdateProfile(s.items, user)[k := Chat(sent, Sent, Outgoing, None)];
    assert x == y <==> x[k] == y[k];
  }

  /** A deletion between response and echo is undone by the echo, which appends the
      message again; between echo and response it holds. */
  lemma DeletionIsUndone(s: Session, k: nat, optimistic: ID, sent: Message, echo: Message)
    requires InFlight(s.items, k, optimistic, sent) && echo.id == sent.id && s.group == Some(echo.group) && !echo.system
    requires FirstPending(s.items, echo, s.me) == k
    ensures HasChat(Apply(Apply(Apply(s, Response(optimistic, sent)), Delete(sent.id)), Echo(echo)).items, sent.id)
    ensures !HasChat(Apply(Apply(Apply(s, Echo(echo)), Delete(sent.id)), Response(optimistic, sent)).items, sent.id)
  {
    var x := Without(ReplaceOptimistic(s.items, optimistic, sent), sent.id);
    var merged := MergeIncoming(x, echo, s.me);
    var f := FirstPending(x, echo, s.me);
    if f < |x| || !HasChat(x, echo.id) {
      assert IsChat(merged[f], sent.id);
    }
    assert forall i :: 0 <= i < |s.items| && i != k ==> !IsChat(s.items[i], optimistic);
    var settled := MergeIncoming(s.items, echo, s.me);
    assert !HasChat(settled, optimistic);
    var y := Without(settled, sent.id);
    WithoutHas(settled, sent.id, sent.id);
    WithoutHas(settled, sent.id, optimistic);
    assert Replace(y, sent.id, MessageView(sent, Outgoing)) == y;
  }
}
