/** The decision logic of the HTTP routes in app/main.py that move a user
    through its states: register, update the profile, start and cancel a
    search, keep and end a conversation. The caller of every route but
    registration is an authenticated user, so it exists in the store.
    Password hashing, tokens and the response bodies' wording are not part
    of this model. */
module Api {
  import opened Wrappers
  import opened Models
  import opened Database
  import opened Registry
  import opened Matching
  import opened Realtime

  /** Why a route refuses a request. */
  datatype ApiError =
    | PasswordMismatch
    | UsernameTaken
    | TooManyInterests
    | ProfileIncomplete
    | NotSearching
    | ConversationNotFound
    | ServerError

  /** The HTTP status each refusal is answered with. */
  function StatusCode(e: ApiError): (code: int)
    ensures code == 404 <==> e == ConversationNotFound
    ensures code == 500 <==> e == ServerError
    ensures code in {400, 404, 500}
  {
    match e
    case ConversationNotFound => 404
    case ServerError => 500
    case _ => 400
  }

  /** At most this many interests may be chosen. */
  const MaxInterests: nat := 5

  /** The fields of a profile update; all are required. */
  datatype Profile = Profile(
    nickname: string,
    dob: Time,
    gender: string,
    preference: string,
    goal: string,
    interests: seq<string>)

  /** The user row after a successful profile update. */
  function WithProfile(u: User, p: Profile): (r: User)
    ensures r.username == u.username && r.state == u.state
    ensures r.nickname == Some(p.nickname) && r.interests == p.interests
    ensures r.dob == Some(p.dob) && r.gender == Some(p.gender)
    ensures r.preference == Some(p.preference) && r.goal == Some(p.goal)
  {
    u.(nickname := Some(p.nickname), dob := Some(p.dob), gender := Some(p.gender),
       preference := Some(p.preference), goal := Some(p.goal), interests := p.interests)
  }

  /** Python truthiness of a nickname column: absent and empty are both false. */
  predicate HasNickname(u: User) {
    u.nickname.Some? && u.nickname.value != ""
  }

  /** What a search request answers: the conversation and the partner, or
      that the caller is still searching. */
  datatype SearchOutcome =
    | Matched(conversationId: ConvId, conversationType: string, partner: UserId, partnerNickname: Option<string>)
    | StillSearching

  /** The other participant of `c`, seen from `u`. */
  function Partner(c: Conversation, u: UserId): (r: UserId)
    ensures c.IsParticipant(u) ==> c.IsParticipant(r) && (c.user1Id != c.user2Id ==> r != u)
  {
    if c.user1Id == u then c.user2Id else c.user1Id
  }

  /** POST /register: refuses a confirmation that differs from the password
      and a username already in use; otherwise adds a user in state
      "waiting" under the next id. */
  method Register(db: Store, username: string, password: string, confirmPassword: string)
    returns (r: Result<UserId, ApiError>)
    requires db.Valid()
    modifies db`users, db`nextUserId
    ensures db.Valid()
    ensures r.Success? <==> password == confirmPassword && !old(db.UsernameTaken(username))
    ensures password != confirmPassword ==> r == Failure(PasswordMismatch)
    ensures password == confirmPassword && old(db.UsernameTaken(username)) ==> r == Failure(UsernameTaken)
    ensures r.Failure? ==> db.users == old(db.users) && db.nextUserId == old(db.nextUserId)
    ensures r.Success? ==>
              && password == confirmPassword && !old(db.UsernameTaken(username))
              && r.value == old(db.nextUserId) && r.value !in old(db.users)
              && db.users == old(db.users)[r.value := NewUser(username)]
              && db.users[r.value].state == Waiting
  {
    if password != confirmPassword {
      return Failure(PasswordMismatch);
    }
    if db.UsernameTaken(username) {
      return Failure(UsernameTaken);
    }
    var id := db.nextUserId;
    db.users := db.users[id := NewUser(username)];
    db.nextUserId := db.nextUserId + 1;
    r := Success(id);
  }

  /** PUT /profile: refuses more than five interests and changes nothing;
      otherwise replaces the caller's profile fields and nothing else. */
  method UpdateProfile(db: Store, u: UserId, p: Profile) returns (r: Result<(), ApiError>)
    requires db.Valid() && u in db.users
    modifies db`users
    ensures db.Valid()
    ensures r.Failure? <==> |p.interests| > MaxInterests
    ensures r.Failure? ==> r.error == TooManyInterests && db.users == old(db.users)
    ensures r.Success? ==> db.users == old(db.users)[u := WithProfile(old(db.users)[u], p)]
  {
    if |p.interests| > MaxInterests {
      return Failure(TooManyInterests);
    }
    db.users := db.users[u := WithProfile(db.users[u], p)];
    r := Success(());
  }

  /** POST /cancel-search: only a searching caller may cancel, and goes
      back to "waiting"; anyone else is refused with nothing changed. */
  method CancelSearch(db: Store, u: UserId) returns (r: Result<(), ApiError>)
    requires db.Valid() && u in db.users
    modifies db`users
    ensures db.Valid()
    ensures r.Success? <==> old(db.users[u].state) == Searching
    ensures r.Failure? ==> r.error == ApiError.NotSearching && db.users == old(db.users)
    ensures r.Success? ==> db.users == old(db.users)[u := old(db.users)[u].(state := Waiting)]
  {
    if db.users[u].state != Searching {
      return Failure(ApiError.NotSearching);
    }
    db.users := db.users[u := db.users[u].(state := Waiting)];
    r := Success(());
  }

  /** POST /keep: the conversation must exist and have the caller as a
      participant (ended ones included). Records the caller's decision,
      refreshes the activity time and answers whether both now keep it. */
  method ToggleKeep(db: Store, u: UserId, id: ConvId, keep: bool, now: Time) returns (r: Result<bool, ApiError>)
    requires db.Valid() && u in db.users
    modifies db.conversations.Values`user1Keep, db.conversations.Values`user2Keep
    modifies db.conversations.Values`lastActivity
    ensures db.Valid()
    ensures r.Success? <==> id in db.conversations && db.conversations[id].IsParticipant(u)
    ensures r.Failure? ==> r.error == ConversationNotFound
    ensures forall d :: d in db.conversations && (d != id || r.Failure?) ==>
              && db.conversations[d].user1Keep == old(db.conversations[d].user1Keep)
              && db.conversations[d].user2Keep == old(db.conversations[d].user2Keep)
              && db.conversations[d].lastActivity == old(db.conversations[d].lastActivity)
    ensures r.Success? ==>
              var c := db.conversations[id];
              && c.GetKeepStatus(u) == keep
              && c.user1Keep == (if u == c.user1Id then keep else old(db.conversations[id].user1Keep))
              && c.user2Keep == (if u != c.user1Id then keep else old(db.conversations[id].user2Keep))
              && c.lastActivity == now
              && r.value == c.BothKept()
              && (!keep ==> !r.value)
  {
    var found := db.ParticipantConversation(id, u);
    if found.None? {
      return Failure(ConversationNotFound);
    }
    var c := found.value;
    c.SetKeepStatus(u, keep);
    c.lastActivity := now;
    r := Success(c.BothKept());
  }

  /** POST /end: the conversation must exist and have the caller as a
      participant. Ends it (inactive, both users back to "waiting") and
      tells every member, up to the first refused send. When that broadcast
      raises, nothing catches it: the route answers with a server error,
      the ending stays committed and the caller stays a member. Otherwise
      only the caller leaves the member set. */
  method EndConversation(db: Store, manager: ConnectionManager, u: UserId, id: ConvId, sendOk: UserId -> bool)
    returns (r: Result<(), ApiError>)
    requires db.Valid() && manager.Valid() && u in db.users
    modifies db`users, db.conversations.Values`isActive, manager
    ensures db.Valid() && manager.Valid()
    ensures r == Failure(ConversationNotFound) <==> !(id in db.conversations && db.conversations[id].IsParticipant(u))
    ensures r == Failure(ConversationNotFound) ==> db.users == old(db.users) && manager.State() == old(manager.State())
    ensures forall d :: d in db.conversations && (d != id || r == Failure(ConversationNotFound)) ==>
              db.conversations[d].isActive == old(db.conversations[d].isActive)
    ensures id in db.conversations && db.conversations[id].IsParticipant(u) ==>
              var c := db.conversations[id];
              && !c.isActive
              && db.users == Release(old(db.users), {c.user1Id, c.user2Id})
              && (r.Failure? ==> r.error == ServerError)
              && EndAnnounced(manager.State(), old(manager.State()), id, u, ConversationEnded(id, u, Some("/")), sendOk, r.Failure?)
  {
    var found := CloseConversation(db, u, id);
    if !found {
      return Failure(ConversationNotFound);
    }
    ghost var start := manager.State();
    assert start == old(manager.State());
    label closed:
    var raised := AnnounceEnd(manager, id, u, ConversationEnded(id, u, Some("/")), sendOk);
    assert unchanged@closed(db);
    assert forall d :: d in db.conversations ==> unchanged@closed(db.conversations[d]);
    if raised {
      r := Failure(ServerError);
    } else {
      r := Success(());
    }
  }

  /** The database part of POST /end: when conversation `id` exists and
      has `u` as a participant, it is ended. */
  method CloseConversation(db: Store, u: UserId, id: ConvId) returns (found: bool)
    requires db.Valid()
    modifies db`users, db.conversations.Values`isActive
    ensures db.Valid()
    ensures found <==> id in db.conversations && db.conversations[id].IsParticipant(u)
    ensures !found ==> db.users == old(db.users)
    ensures forall d :: d in db.conversations && (d != id || !found) ==>
              db.conversations[d].isActive == old(db.conversations[d].isActive)
    ensures found ==>
              var c := db.conversations[id];
              !c.isActive && db.users == Release(old(db.users), {c.user1Id, c.user2Id})
  {
    var conversation := db.ParticipantConversation(id, u);
    if conversation.None? {
      return false;
    }
    var service := new MatchingService(db);
    service.EndConversation(conversation.value);
    found := true;
  }

  /** The delivery of `event` to `v`, when its socket takes it. */
  function Notice(v: UserId, active: map<UserId, SocketId>, sendOk: UserId -> bool, event: Event): (r: seq<Delivery>)
    ensures |r| <= 1
    ensures r != [] <==> v in active && sendOk(v)
    ensures r != [] ==> r[0] == Delivery(v, active[v], event)
  {
    if v in active && sendOk(v) then [Delivery(v, active[v], event)] else []
  }

  /** Both users join conversation `id`. */
  method JoinBoth(manager: ConnectionManager, id: ConvId, u: UserId, m: UserId)
    requires manager.Valid()
    modifies manager
    ensures manager.Valid()
    ensures forall d: ConvId :: manager.Members(d) ==
              if d == id then old(manager.Members(d)) + {u, m} else old(manager.Members(d))
    ensures manager.activeConnections == old(manager.activeConnections) && manager.outbox == old(manager.outbox)
    ensures manager.typingStatus == old(manager.typingStatus)
  {
    manager.AddToConversation(id, u);
    manager.AddToConversation(id, m);
  }

  /** `event` is sent to `v` alone; a refused send disconnects `v`. */
  method Notify(manager: ConnectionManager, v: UserId, event: Event, sendOk: UserId -> bool)
    requires manager.Valid()
    modifies manager
    ensures manager.Valid()
    ensures manager.conversationConnections ==
              PurgeMembers(old(manager.conversationConnections), Dropped({v}, old(manager.activeConnections), sendOk))
    ensures manager.typingStatus == PurgeTyping(old(manager.typingStatus), Dropped({v}, old(manager.activeConnections), sendOk))
    ensures manager.activeConnections == old(manager.activeConnections) - Dropped({v}, old(manager.activeConnections), sendOk)
    ensures manager.outbox == old(manager.outbox) + Notice(v, old(manager.activeConnections), sendOk, event)
  {
    ghost var active := manager.activeConnections;
    PurgeNobody(manager.conversationConnections, manager.typingStatus);
    var sent := manager.SendPersonalMessage(event, v, sendOk(v));
    if v in active && !sendOk(v) {
      assert Dropped({v}, active, sendOk) == {v};
    } else {
      assert Dropped({v}, active, sendOk) == {};
      assert active - {} == active;
    }
  }

  /** The registry side of a match: both users join the new conversation,
      then each is sent `event`, the searcher first; a refused send
      disconnects that user. */
  method AnnounceMatch(manager: ConnectionManager, id: ConvId, u: UserId, m: UserId, event: Event, sendOk: UserId -> bool)
    requires manager.Valid() && u != m
    modifies manager
    ensures manager.Valid()
    ensures forall d: ConvId :: manager.Members(d) ==
              (if d == id then old(manager.Members(d)) + {u, m} else old(manager.Members(d)))
                - Dropped({u, m}, old(manager.activeConnections), sendOk)
    ensures manager.activeConnections == old(manager.activeConnections) - Dropped({u, m}, old(manager.activeConnections), sendOk)
    ensures manager.outbox == old(manager.outbox) + Notice(u, old(manager.activeConnections), sendOk, event)
                                                  + Notice(m, old(manager.activeConnections), sendOk, event)
    ensures manager.typingStatus == PurgeTyping(old(manager.typingStatus), Dropped({u, m}, old(manager.activeConnections), sendOk))
  {
    ghost var active := manager.activeConnections;
    ghost var typing := manager.typingStatus;
    JoinBoth(manager, id, u, m);
    Notify(manager, u, event, sendOk);
    ghost var active1 := manager.activeConnections;
    assert Notice(m, active1, sendOk, event) == Notice(m, active, sendOk, event);
    assert Dropped({m}, active1, sendOk) == Dropped({m}, active, sendOk);
    Notify(manager, m, event, sendOk);
    assert Dropped({u}, active, sendOk) + Dropped({m}, active, sendOk) == Dropped({u, m}, active, sendOk);
    assert active - Dropped({u}, active, sendOk) - Dropped({m}, active, sendOk) == active - Dropped({u, m}, active, sendOk);
    PurgeTypingTwice(typing, Dropped({u}, active, sendOk), Dropped({m}, active, sendOk));
  }

  /** POST /search. A caller without a nickname is refused. A caller who
      already takes part in an active conversation gets that conversation
      back and joins its member set, with no change of state (a partner
      missing from the store is a server error, after the join). Anyone
      else becomes "searching"; when a partner is found, a conversation is
      created, both join it and both are told. Otherwise the caller stays
      "searching". */
  method StartSearch(db: Store, manager: ConnectionManager, u: UserId, searchType: string, now: Time, sendOk: UserId -> bool)
    returns (r: Result<SearchOutcome, ApiError>)
    requires db.Valid() && manager.Valid() && u in db.users
    modifies db`users, db`conversations, db`nextConversationId, manager
    ensures db.Valid() && manager.Valid()
    ensures !old(HasNickname(db.users[u])) ==>
              && r == Failure(ProfileIncomplete)
              && db.users == old(db.users) && db.conversations == old(db.conversations)
              && manager.State() == old(manager.State())
    ensures old(HasNickname(db.users[u])) && old(db.InActiveConversation(u)) ==>
              && db.users == old(db.users) && db.conversations == old(db.conversations)
              && manager.activeConnections == old(manager.activeConnections)
              && manager.typingStatus == old(manager.typingStatus) && manager.outbox == old(manager.outbox)
              && exists id ::
                   && id in db.conversations && db.conversations[id].isActive && db.conversations[id].IsParticipant(u)
                   && (forall d: ConvId :: manager.Members(d) ==
                         if d == id then old(manager.Members(d)) + {u} else old(manager.Members(d)))
                   && (r.Failure? <==> Partner(db.conversations[id], u) !in db.users)
                   && (r.Failure? ==> r.error == ServerError)
                   && (r.Success? ==> Partner(db.conversations[id], u) in db.users &&
                                      r.value == Matched(id, db.conversations[id].conversationType,
                                                         Partner(db.conversations[id], u),
                                                         db.users[Partner(db.conversations[id], u)].nickname))
    ensures old(HasNickname(db.users[u])) && !old(db.InActiveConversation(u)) ==>
              && r.Success?
              && (r.value.StillSearching? <==>
                    forall c :: !old(Eligible(db, u, c)))
              && (r.value.StillSearching? ==>
                    && db.users == old(db.users)[u := old(db.users)[u].(state := Searching)]
                    && db.conversations == old(db.conversations)
                    && manager.State() == old(manager.State()))
              && (r.value.Matched? ==>
                    var m := r.value.partner;
                    var id := r.value.conversationId;
                    var event := MatchFound(id, searchType, m, r.value.partnerNickname);
                    var active := old(manager.activeConnections);
                    && old(Eligible(db, u, m))
                    && id == old(db.nextConversationId) && id !in old(db.conversations)
                    && id in db.conversations && db.conversations == old(db.conversations)[id := db.conversations[id]]
                    && db.conversations[id].isActive && Joins(db.conversations[id], u, m)
                    && r.value.conversationType == searchType
                    && r.value.partnerNickname == old(db.users[m].nickname)
                    && db.users == old(db.users)[u := old(db.users)[u].(state := Connected)]
                                                [m := old(db.users)[m].(state := Connected)]
                    && (forall d: ConvId :: manager.Members(d) ==
                          (if d == id then old(manager.Members(d)) + {u, m} else old(manager.Members(d)))
                            - Dropped({u, m}, active, sendOk))
                    && manager.activeConnections == active - Dropped({u, m}, active, sendOk)
                    && manager.typingStatus == PurgeTyping(old(manager.typingStatus), Dropped({u, m}, active, sendOk))
                    && manager.outbox == old(manager.outbox) + Notice(u, active, sendOk, event) + Notice(m, active, sendOk, event))
  {
    if !HasNickname(db.users[u]) {
      return Failure(ProfileIncomplete);
    }
    if db.InActiveConversation(u) {
      r := ResumeConversation(db, manager, u);
    } else {
      r := SearchForPartner(db, manager, u, searchType, now, sendOk);
    }
  }

  /** The branch of POST /search for a caller already in an active
      conversation: join its member set and report it. */
  method ResumeConversation(db: Store, manager: ConnectionManager, u: UserId)
    returns (r: Result<SearchOutcome, ApiError>)
    requires db.Valid() && manager.Valid() && u in db.users && db.InActiveConversation(u)
    modifies manager
    ensures manager.Valid()
    ensures manager.activeConnections == old(manager.activeConnections)
    ensures manager.typingStatus == old(manager.typingStatus) && manager.outbox == old(manager.outbox)
    ensures exists id ::
              && id in db.conversations && db.conversations[id].isActive && db.conversations[id].IsParticipant(u)
              && (forall d: ConvId :: manager.Members(d) ==
                    if d == id then old(manager.Members(d)) + {u} else old(manager.Members(d)))
              && (r.Failure? <==> Partner(db.conversations[id], u) !in db.users)
              && (r.Failure? ==> r.error == ServerError)
              && (r.Success? ==> Partner(db.conversations[id], u) in db.users &&
                                 r.value == Matched(id, db.conversations[id].conversationType,
                                                    Partner(db.conversations[id], u),
                                                    db.users[Partner(db.conversations[id], u)].nickname))
  {
    var existing := db.FindActiveConversationOf(u);
    var c := existing.value;
    assert db.conversations[c.id] == c;
    manager.AddToConversation(c.id, u);
    var other := Partner(c, u);
    if other !in db.users {
      r := Failure(ServerError);
    } else {
      r := Success(Matched(c.id, c.conversationType, other, db.users[other].nickname));
    }
  }

  /** The branch of POST /search for a caller in no active conversation:
      become "searching", look for a partner and, when one is found, pair
      them up and tell both. */
  method SearchForPartner(db: Store, manager: ConnectionManager, u: UserId, searchType: string, now: Time, sendOk: UserId -> bool)
    returns (r: Result<SearchOutcome, ApiError>)
    requires db.Valid() && manager.Valid() && u in db.users && !db.InActiveConversation(u)
    modifies db`users, db`conversations, db`nextConversationId, manager
    ensures db.Valid() && manager.Valid()
    ensures r.Success?
    ensures r.value.StillSearching? <==> forall c :: !old(Eligible(db, u, c))
    ensures r.value.StillSearching? ==>
              && db.users == old(db.users)[u := old(db.users)[u].(state := Searching)]
              && db.conversations == old(db.conversations)
              && manager.State() == old(manager.State())
    ensures r.value.Matched? ==>
              var m := r.value.partner;
              var id := r.value.conversationId;
              var event := MatchFound(id, searchType, m, r.value.partnerNickname);
              var active := old(manager.activeConnections);
              && old(Eligible(db, u, m))
              && id == old(db.nextConversationId) && id !in old(db.conversations)
              && id in db.conversations && db.conversations == old(db.conversations)[id := db.conversations[id]]
              && db.conversations[id].isActive && Joins(db.conversations[id], u, m)
              && r.value.conversationType == searchType
              && r.value.partnerNickname == old(db.users[m].nickname)
              && db.users == old(db.users)[u := old(db.users)[u].(state := Connected)]
                                          [m := old(db.users)[m].(state := Connected)]
              && (forall d: ConvId :: manager.Members(d) ==
                    (if d == id then old(manager.Members(d)) + {u, m} else old(manager.Members(d)))
                      - Dropped({u, m}, active, sendOk))
              && manager.activeConnections == active - Dropped({u, m}, active, sendOk)
              && manager.typingStatus == PurgeTyping(old(manager.typingStatus), Dropped({u, m}, active, sendOk))
              && manager.outbox == old(manager.outbox) + Notice(u, active, sendOk, event) + Notice(m, active, sendOk, event)
  {
    var found := BeginSearch(db, u, searchType);
    if found.None? {
      return Success(StillSearching);
    }
    var m := found.value;
    var c := PairUp(db, manager, u, m, searchType, now, sendOk);
    r := Success(Matched(c.id, c.conversationType, m, db.users[m].nickname));
  }

  /** A partner `m` was found for the searching `u`: the conversation is
      created, both join it and both are told. */
  method PairUp(db: Store, manager: ConnectionManager, u: UserId, m: UserId, searchType: string, now: Time, sendOk: UserId -> bool)
    returns (c: Conversation)
    requires db.Valid() && manager.Valid()
    requires db.IsSearching(u) && Eligible(db, u, m)
    modifies db`users, db`conversations, db`nextConversationId, manager
    ensures db.Valid() && manager.Valid()
    ensures c.id == old(db.nextConversationId) && c.id !in old(db.conversations)
    ensures db.conversations == old(db.conversations)[c.id := c]
    ensures c.isActive && c.user1Id == u && c.user2Id == m && c.conversationType == searchType
    ensures db.users == old(db.users)[u := old(db.users)[u].(state := Connected)]
                                     [m := old(db.users)[m].(state := Connected)]
    ensures var event := MatchFound(c.id, searchType, m, old(db.users[m].nickname));
            var active := old(manager.activeConnections);
            && (forall d: ConvId :: manager.Members(d) ==
                  (if d == c.id then old(manager.Members(d)) + {u, m} else old(manager.Members(d))) - Dropped({u, m}, active, sendOk))
            && manager.activeConnections == active - Dropped({u, m}, active, sendOk)
            && manager.typingStatus == PurgeTyping(old(manager.typingStatus), Dropped({u, m}, active, sendOk))
            && manager.outbox == old(manager.outbox) + Notice(u, active, sendOk, event) + Notice(m, active, sendOk, event)
  {
    var service := new MatchingService(db);
    var created := service.CreateConversation(u, m, searchType, now);
    if created.Failure? {
      // Only a concurrent change can make this fail; sequentially the
      // candidate found always qualifies.
      assert false;
    }
    c := created.value;
    assert c.id !in old(db.conversations);
    var event := MatchFound(c.id, c.conversationType, m, db.users[m].nickname);
    AnnounceMatch(manager, c.id, u, m, event, sendOk);
  }

  /** The caller becomes "searching" and a partner is looked for. */
  method BeginSearch(db: Store, u: UserId, searchType: string) returns (found: Option<UserId>)
    requires db.Valid() && u in db.users
    modifies db`users
    ensures db.Valid()
    ensures db.users == old(db.users)[u := old(db.users)[u].(state := Searching)]
    ensures db.conversations == old(db.conversations)
    ensures found.None? <==> forall c :: !old(Eligible(db, u, c))
    ensures found.Some? ==> old(Eligible(db, u, found.value)) && Eligible(db, u, found.value) && db.IsSearching(u)
  {
    db.users := db.users[u := db.users[u].(state := Searching)];
    assert forall c :: c != u ==> (db.IsSearching(c) <==> old(db.IsSearching(c)));
    assert forall c :: db.ActiveBetween(u, c) == ActivePair(old(db.conversations), u, c);
    assert db.IsSearching(u);
    assert forall c :: Eligible(db, u, c) <==> old(Eligible(db, u, c));
    var service := new MatchingService(db);
    found := service.FindMatch(u, searchType);
    if found.None? {
      forall c
        ensures !old(Eligible(db, u, c))
      {
        assert !Eligible(db, u, c);
      }
    } else {
      assert old(Eligible(db, u, found.value));
    }
  }
}
