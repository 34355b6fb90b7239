/**
 * GET /users of `server/routes/users.js`: every stored user except the
 * requester, without the password, annotated with `isOnline` from the
 * socket server's registry.
 */
module UserRoutes {
  import opened Common
  import opened Domain

  /** A stored user: its id, its password hash and its other fields. */
  datatype User = User(id: UserId, password: string, profile: map<string, string>)

  /** A user as the route returns it: `...u.toObject()` without the password, plus `isOnline`. */
  datatype UserView = UserView(id: UserId, profile: map<string, string>, isOnline: bool)

  /** The query `{ _id: { $ne: requester } }`, in collection order. */
  function Others(users: seq<User>, requester: UserId): (r: seq<User>)
    ensures forall u :: u in r <==> u in users && u.id != requester
    ensures |r| <= |users|
  {
    if users == [] then []
    else if users[0].id == requester then Others(users[1..], requester)
    else [users[0]] + Others(users[1..], requester)
  }

  /** The filter keeps the collection's order: it distributes over concatenation. */
  lemma {:induction false} OthersKeepsOrder(a: seq<User>, b: seq<User>, requester: UserId)
    ensures Others(a + b, requester) == Others(a, requester) + Others(b, requester)
  {
    if a != [] {
      assert (a + b)[1..] == a[1..] + b;
      OthersKeepsOrder(a[1..], b, requester);
    } else {
      assert a + b == b;
    }
  }

  /** The `.map` that drops the password and adds `isOnline`. */
  function WithPresence(users: seq<User>, online: map<UserId, SocketId>): (r: seq<UserView>)
    ensures |r| == |users|
    ensures forall k :: 0 <= k < |users| ==>
      r[k].id == users[k].id && r[k].profile == users[k].profile && (r[k].isOnline <==> users[k].id in online)
  {
    if users == [] then []
    else [UserView(users[0].id, users[0].profile, users[0].id in online)] + WithPresence(users[1..], online)
  }

  /** The handler: `db` is what `User.find` yields, or the message of the error it throws. */
  function ListUsers(db: Result<seq<User>, string>, requester: UserId, online: map<UserId, SocketId>): (r: Response<seq<UserView>>)
    ensures db.Err? <==> r.ErrorJson?
    ensures db.Err? ==> r == ErrorJson(InternalServerError, db.error)
  {
    match db
    case Ok(users) => Json(WithPresence(Others(users, requester), online))
    case Err(message) => ErrorJson(InternalServerError, message)
  }

  /** The requester never appears in the list. */
  lemma ListUsersExcludesRequester(users: seq<User>, requester: UserId, online: map<UserId, SocketId>)
    ensures var body := ListUsers(Ok(users), requester, online).body;
      forall k :: 0 <= k < |body| ==> body[k].id != requester
  {
  }

  /**
   * One entry per stored user other than the requester, in collection order,
   * keeping its id and fields, with `isOnline` true exactly when its id is a
   * key of the registry.
   */
  lemma ListUsersAnnotatesEachOther(users: seq<User>, requester: UserId, online: map<UserId, SocketId>)
    ensures var body := ListUsers(Ok(users), requester, online).body;
      var others := Others(users, requester);
      && |body| == |others|
      && forall k :: 0 <= k < |body| ==>
           && body[k].id == others[k].id && body[k].profile == others[k].profile
           && (body[k].isOnline <==> body[k].id in online)
  {
  }
}

/**
 * GET /conversations/:id/messages of `server/routes/messages.js`: the
 * messages between the requester and the peer, in either direction, sorted
 * ascending by creation time.
 */
module MessageRoutes {
  import opened Common
  import opened Domain

  /** The `$or` of the query: one party sent it and the other received it. */
  predicate Between(m: Message, a: UserId, b: UserId)
  {
    (m.sender == a && m.receiver == b) || (m.sender == b && m.receiver == a)
  }

  /** The query's filter, in collection order. */
  function Conversation(msgs: seq<Message>, a: UserId, b: UserId): (r: seq<Message>)
    ensures forall m :: m in r ==> Between(m, a, b)
    ensures forall m :: Between(m, a, b) ==> multiset(r)[m] == multiset(msgs)[m]
  {
    if msgs == [] then []
    else
      var rest := Conversation(msgs[1..], a, b);
      assert msgs == [msgs[0]] + msgs[1..];
      assert multiset(msgs) == multiset{msgs[0]} + multiset(msgs[1..]);
      if Between(msgs[0], a, b) then
        assert multiset([msgs[0]] + rest) == multiset{msgs[0]} + multiset(rest);
        [msgs[0]] + rest
      else
        rest
  }

  predicate SortedByCreation(s: seq<Message>)
  {
    forall i, j :: 0 <= i < j < |s| ==> s[i].createdAt <= s[j].createdAt
  }

  /** Places `m` before the first element created no earlier than it. */
  function Insert(m: Message, s: seq<Message>): (r: seq<Message>)
    ensures multiset(r) == multiset(s) + multiset{m}
    ensures SortedByCreation(s) ==> SortedByCreation(r)
  {
    if s == [] || m.createdAt <= s[0].createdAt then
      assert SortedByCreation(s) ==> forall j :: 0 <= j < |s| ==> m.createdAt <= s[j].createdAt;
      [m] + s
    else
      var rest := Insert(m, s[1..]);
      assert s == [s[0]] + s[1..];
      if SortedByCreation(s) then
        SortedPrefixBound(s[0], s[1..], rest, m);
        [s[0]] + rest
      else
        [s[0]] + rest
  }

  /** Everything in `rest`, a permutation of `tail` plus `m`, is created no earlier than `first`. */
  lemma SortedPrefixBound(first: Message, tail: seq<Message>, rest: seq<Message>, m: Message)
    requires SortedByCreation([first] + tail) && first.createdAt < m.createdAt
    requires multiset(rest) == multiset(tail) + multiset{m} && SortedByCreation(rest)
    ensures SortedByCreation([first] + rest)
  {
    forall j | 0 <= j < |rest|
      ensures first.createdAt <= rest[j].createdAt
    {
      assert rest[j] in multiset(rest);
      if rest[j] != m {
        assert rest[j] in multiset(tail);
        var k :| 0 <= k < |tail| && tail[k] == rest[j];
        assert ([first] + tail)[0] == first && ([first] + tail)[k + 1] == tail[k];
      }
    }
    var r := [first] + rest;
    forall i, j | 0 <= i < j < |r|
      ensures r[i].createdAt <= r[j].createdAt
    {
      if i > 0 {
        assert r[i] == rest[i - 1] && r[j] == rest[j - 1];
      } else {
        assert r[j] == rest[j - 1];
      }
    }
  }

  /** `.sort({ createdAt: 1 })`: a sorted permutation of its input. */
  function SortByCreation(s: seq<Message>): (r: seq<Message>)
    ensures multiset(r) == multiset(s)
    ensures SortedByCreation(r)
  {
    if s == [] then []
    else
      assert s == [s[0]] + s[1..];
      Insert(s[0], SortByCreation(s[1..]))
  }

  /** The handler: `db` is the message collection, or the message of the error the query throws. */
  function History(db: Result<seq<Message>, string>, requester: UserId, peer: UserId): (r: Response<seq<Message>>)
    ensures db.Err? <==> r.ErrorJson?
    ensures db.Err? ==> r == ErrorJson(InternalServerError, db.error)
  {
    match db
    case Ok(msgs) => Json(SortByCreation(Conversation(msgs, requester, peer)))
    case Err(message) => ErrorJson(InternalServerError, message)
  }

  /**
   * The history holds every stored message between the two parties, in
   * either direction, as often as it is stored, and nothing else, sorted
   * ascending by creation time.
   */
  lemma HistoryIsTheSortedConversation(msgs: seq<Message>, requester: UserId, peer: UserId)
    ensures var body := History(Ok(msgs), requester, peer).body;
      && SortedByCreation(body)
      && (forall m :: m in body ==> Between(m, requester, peer))
      && (forall m :: Between(m, requester, peer) ==> multiset(body)[m] == multiset(msgs)[m])
  {
    var c := Conversation(msgs, requester, peer);
    var body := SortByCreation(c);
    forall m | m in body
      ensures Between(m, requester, peer)
    {
      assert m in multiset(c);
    }
  }

  /** A's history with B is B's history with A, in the same order. */
  lemma {:induction false} ConversationSymmetric(msgs: seq<Message>, a: UserId, b: UserId)
    ensures Conversation(msgs, a, b) == Conversation(msgs, b, a)
  {
    if msgs != [] {
      ConversationSymmetric(msgs[1..], a, b);
    }
  }

  lemma HistorySymmetric(db: Result<seq<Message>, string>, a: UserId, b: UserId)
    ensures History(db, a, b) == History(db, b, a)
  {
    if db.Ok? {
      ConversationSymmetric(db.value, a, b);
    }
  }
}
