/** The relational store behind the server, seen as three tables: users and
    conversations keyed by id, and the append-only message log. Ids are
    handed out in increasing order starting at 1, as the store's integer
    primary keys are; 0 is never an id, which matters because the websocket
    handlers treat a conversation id of 0 as missing. */
module Database {
  import opened Wrappers
  import opened Models

  class Store {
    var users: map<UserId, User>
    var conversations: map<ConvId, Conversation>
    var messages: seq<Message>
    var nextUserId: UserId
    var nextConversationId: ConvId
    var nextMessageId: MessageId

    /** Keys agree with the rows' ids, every id is positive and below the
        next one to be handed out, and usernames are unique. */
    ghost predicate Valid()
      reads this
    {
      && 1 <= nextUserId && 1 <= nextConversationId && 1 <= nextMessageId
      && (forall u :: u in users ==> 1 <= u < nextUserId)
      && (forall id :: id in conversations ==> conversations[id].id == id && 1 <= id < nextConversationId)
      && (forall a, b :: a in users && b in users && users[a].username == users[b].username ==> a == b)
    }

    constructor ()
      ensures Valid()
      ensures users == map[] && conversations == map[] && messages == []
    {
      users, conversations, messages := map[], map[], [];
      nextUserId, nextConversationId, nextMessageId := 1, 1, 1;
    }

    /** `u` exists and is in state "searching". */
    predicate IsSearching(u: UserId)
      reads this
    {
      u in users && users[u].state == Searching
    }

    /** Some row of the users table has this username. */
    predicate UsernameTaken(username: string)
      reads this
    {
      exists u :: u in users && users[u].username == username
    }

    /** An active conversation pairs `a` and `b`, in either order. */
    predicate ActiveBetween(a: UserId, b: UserId)
      reads this, conversations.Values
    {
      ActivePair(conversations, a, b)
    }

    /** `u` takes part in some active conversation. */
    predicate InActiveConversation(u: UserId)
      reads this, conversations.Values
    {
      exists id :: id in conversations && conversations[id].isActive && conversations[id].IsParticipant(u)
    }

    /** No two active conversations pair the same two users. */
    ghost predicate UniqueActivePairs()
      reads this, conversations.Values
    {
      forall i, j ::
        (i in conversations && j in conversations && i != j &&
         conversations[i].isActive && conversations[j].isActive) ==>
        !Joins(conversations[j], conversations[i].user1Id, conversations[i].user2Id)
    }

    /** The query "every other user whose state is searching", returned in
        no particular order. */
    method SearchingUsersExcept(u: UserId) returns (r: seq<UserId>)
      ensures forall c :: c in r <==> c != u && IsSearching(c)
    {
      r := [];
      var todo := users.Keys;
      while todo != {}
        invariant todo <= users.Keys
        invariant forall c :: c in r ==> c != u && IsSearching(c)
        invariant forall c :: c in users && c !in todo && c != u && IsSearching(c) ==> c in r
        decreases |todo|
      {
        HasElement(todo);
        var c :| c in todo;
        todo := todo - {c};
        if c != u && users[c].state == Searching {
          r := r + [c];
        }
      }
    }

    /** The query "first active conversation in which `u` takes part"; the
        query has no ordering, so any such conversation may come back. */
    method FindActiveConversationOf(u: UserId) returns (r: Option<Conversation>)
      ensures r.Some? <==> InActiveConversation(u)
      ensures r.Some? ==> r.value in conversations.Values && r.value.isActive && r.value.IsParticipant(u)
    {
      if InActiveConversation(u) {
        var id :| id in conversations && conversations[id].isActive && conversations[id].IsParticipant(u);
        r := Some(conversations[id]);
      } else {
        r := None;
      }
    }

    /** The query "conversation `id` in which `u` takes part", active or not. */
    function ParticipantConversation(id: ConvId, u: UserId): (r: Option<Conversation>)
      reads this
      ensures r.Some? <==> id in conversations && conversations[id].IsParticipant(u)
      ensures r.Some? ==> r.value == conversations[id]
    {
      if id in conversations && conversations[id].IsParticipant(u) then Some(conversations[id]) else None
    }
  }

  /** Some active conversation in `conversations` pairs `a` and `b`. */
  predicate ActivePair(conversations: map<ConvId, Conversation>, a: UserId, b: UserId)
    reads conversations.Values
  {
    exists id :: id in conversations && conversations[id].isActive && Joins(conversations[id], a, b)
  }

  /** Conversation `c` pairs `a` and `b`, in either order. */
  predicate Joins(c: Conversation, a: UserId, b: UserId) {
    (c.user1Id == a && c.user2Id == b) || (c.user1Id == b && c.user2Id == a)
  }

  /** The users table after every user in `ids` has been returned to
      "waiting"; nothing else changes. */
  function Release(users: map<UserId, User>, ids: set<UserId>): (r: map<UserId, User>)
    ensures r.Keys == users.Keys
    ensures forall u :: u in r && u in ids ==> r[u].state == Waiting
    ensures forall u :: u in r && u !in ids ==> r[u] == users[u]
    ensures forall u :: u in r ==> r[u].(state := users[u].state) == users[u]
  {
    map u | u in users :: if u in ids then users[u].(state := Waiting) else users[u]
  }

  /** Releasing the same users twice is releasing them once. */
  lemma ReleaseIdempotent(users: map<UserId, User>, ids: set<UserId>)
    ensures Release(Release(users, ids), ids) == Release(users, ids)
  {
  }

  /** Releasing one user sets its state alone, when it exists. */
  lemma ReleaseOne(users: map<UserId, User>, a: UserId)
    ensures Release(users, {a}) == if a in users then users[a := users[a].(state := Waiting)] else users
  {
  }

  /** Releasing two groups one after the other releases their union. */
  lemma ReleaseTwice(users: map<UserId, User>, s: set<UserId>, t: set<UserId>)
    ensures Release(Release(users, s), t) == Release(users, s + t)
  {
  }
}
