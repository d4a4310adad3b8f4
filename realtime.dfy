/** The websocket session handler (class `WebSocketHandler` of
    app/websocket_manager.py): it joins a newly connected user to the
    conversation they are in, then dispatches each incoming frame by its
    "type" to the chat, typing, keep and end handlers. The database session
    each handler opens is the `Store` handed in; the clock reading and the
    socket outcomes of each frame are handed in too. */
module Realtime {
  import opened Wrappers
  import opened Models
  import opened Database
  import opened Registry

  /** The "data" object of an incoming frame; a key that is absent reads
      as `None`. */
  datatype Payload = Payload(
    conversationId: Option<ConvId>,
    content: Option<string>,
    messageType: Option<string>,
    isTyping: Option<bool>,
    keepStatus: Option<bool>)

  /** An incoming JSON frame: its "type" and its "data", each possibly absent. */
  datatype Frame = Frame(kind: Option<string>, data: Option<Payload>)

  /** A frame as it arrives: the clock reading at that moment and which
      sockets accept a send while it is handled. */
  datatype Incoming = Incoming(frame: Frame, at: Time, sendOk: UserId -> bool)

  /** The frame types that have a handler. */
  predicate Handled(kind: Option<string>) {
    kind == Some("chat_message") || kind == Some("typing") || kind == Some("keep") || kind == Some("end_conversation")
  }

  /** A frame that ends the session by itself: a handled type without
      "data", whose lookup raises `KeyError`. */
  predicate Malformed(frame: Frame) {
    Handled(frame.kind) && frame.data.None?
  }

  /** A frame whose handling can end the session: a malformed one, or a
      typing frame, whose broadcast error nothing catches. */
  predicate MayFail(frame: Frame) {
    Malformed(frame) || (frame.kind == Some("typing") && frame.data.Some?)
  }

  /** Python truthiness of an optional conversation id: absent and 0 are
      both false. */
  predicate Truthy(id: Option<ConvId>) {
    id.Some? && id.value != 0
  }

  /** The member sets a chat message is broadcast over: when the registry
      has no entry for the conversation but the conversation exists, both
      of its participants are added first. */
  function ChatRoom(members: map<ConvId, set<UserId>>, conversations: map<ConvId, Conversation>, cid: ConvId)
    : (r: map<ConvId, set<UserId>>)
    ensures cid in members || cid !in conversations ==> r == members
    ensures cid !in members && cid in conversations ==>
              r == members[cid := {conversations[cid].user1Id, conversations[cid].user2Id}]
  {
    if cid in members || cid !in conversations then members
    else members[cid := {conversations[cid].user1Id, conversations[cid].user2Id}]
  }

  /** The message row that handling `frame` at `now` stores when the next
      message id is `next`: one row for a chat message with a conversation
      id and content, none for anything else. */
  function NewMessages(frame: Frame, user: UserId, now: Time, next: MessageId): (r: seq<Message>)
    ensures |r| <= 1
    ensures r != [] <==>
              && frame.kind == Some("chat_message") && frame.data.Some?
              && Truthy(frame.data.value.conversationId)
              && frame.data.value.content.Some? && frame.data.value.content != Some("")
    ensures r != [] ==>
              && r[0].id == next && r[0].senderId == user && r[0].createdAt == now
              && r[0].conversationId == frame.data.value.conversationId.value
              && r[0].content == frame.data.value.content.value
              && r[0].messageType == frame.data.value.messageType.GetOr("text")
  {
    if frame.kind != Some("chat_message") || frame.data.None? then []
    else
      var data := frame.data.value;
      if !Truthy(data.conversationId) || data.content.None? || data.content == Some("") then []
      else [Message(next, data.conversationId.value, user, data.content.value, data.messageType.GetOr("text"), now)]
  }

  /** The message rows a run of frames from `user` stores, in order, when
      the first gets the id `next`. */
  function SessionMessages(frames: seq<Incoming>, n: nat, user: UserId, next: MessageId): (r: seq<Message>)
    requires n <= |frames|
    ensures |r| <= n
  {
    if n == 0 then []
    else
      var before := SessionMessages(frames, n - 1, user, next);
      before + NewMessages(frames[n - 1].frame, user, frames[n - 1].at, next + |before|)
  }

  /** One more frame appends its rows to a session's, after those already
      stored. */
  lemma SessionMessagesNext(frames: seq<Incoming>, n: nat, user: UserId, next: MessageId,
                            messages: seq<Message>, stored: seq<Message>)
    requires n < |frames| && stored == SessionMessages(frames, n, user, next)
    ensures var added := NewMessages(frames[n].frame, user, frames[n].at, next + |stored|);
            && SessionMessages(frames, n + 1, user, next) == stored + added
            && messages + stored + added == messages + (stored + added)
  {
  }

  /** Rows numbered consecutively from `next`, all sent by `user`. */
  predicate Numbered(rows: seq<Message>, user: UserId, next: MessageId)
  {
    forall k :: 0 <= k < |rows| ==> rows[k].id == next + k && rows[k].senderId == user
  }

  /** The rows a session stores carry consecutive ids from `next`, and all
      of them name `user` as sender. */
  lemma {:induction false} SessionMessagesNumbered(frames: seq<Incoming>, n: nat, user: UserId, next: MessageId)
    requires n <= |frames|
    ensures Numbered(SessionMessages(frames, n, user, next), user, next)
  {
    if n != 0 {
      var before := SessionMessages(frames, n - 1, user, next);
      var added := NewMessages(frames[n - 1].frame, user, frames[n - 1].at, next + |before|);
      SessionMessagesNumbered(frames, n - 1, user, next);
      var r := before + added;
      forall k | 0 <= k < |r|
        ensures r[k].id == next + k && r[k].senderId == user
      {
        if k < |before| {
          assert r[k] == before[k];
        } else {
          assert k == |before| && r[k] == added[0];
        }
      }
    }
  }

  /** No conversation's keep flags changed. */
  twostate predicate KeepsUntouched(db: Store)
    reads db, db.conversations.Values
  {
    && db.conversations == old(db.conversations)
    && forall id :: id in db.conversations ==>
      && db.conversations[id].user1Keep == old(db.conversations[id].user1Keep)
      && db.conversations[id].user2Keep == old(db.conversations[id].user2Keep)
  }

  /** No conversation's keep flags or activity time changed. */
  twostate predicate Untouched(db: Store)
    reads db, db.conversations.Values
  {
    && KeepsUntouched(db)
    && forall id :: id in db.conversations ==>
         db.conversations[id].lastActivity == old(db.conversations[id].lastActivity)
  }

  /** What a "chat_message" frame with `data` does. Without a conversation
      id or content nothing changes. Otherwise the message is stored under
      the next id with "text" as the default type (even when no
      conversation has that id), that conversation's activity time is set,
      both participants are added to the registry if it has no entry for
      the conversation, and the message is broadcast to every member but
      the sender, up to the first refused send. */
  twostate predicate ChatHandled(db: Store, manager: ConnectionManager, user: UserId, data: Payload, now: Time,
                                 sendOk: UserId -> bool)
    reads db, db.conversations.Values, manager
  {
    if !Truthy(data.conversationId) || data.content.None? || data.content == Some("") then
      && db.messages == old(db.messages) && db.nextMessageId == old(db.nextMessageId)
      && manager.State() == old(manager.State())
      && Untouched(db)
    else
      var cid := data.conversationId.value;
      var message := Message(old(db.nextMessageId), cid, user, data.content.value, data.messageType.GetOr("text"), now);
      && db.messages == old(db.messages) + [message]
      && db.nextMessageId == old(db.nextMessageId) + 1
      && db.conversations == old(db.conversations)
      && (forall id :: id in db.conversations ==>
            db.conversations[id].lastActivity == if id == cid then now else old(db.conversations[id].lastActivity))
      && Relayed(manager.State(), old(manager.State()), db.conversations, cid, user,
                 ChatMessage(message.id, cid, user, message.content, message.messageType, now), sendOk)
  }

  /** The registry went from `start` to `now` by relaying the chat `event`
      of `user` in conversation `cid`: when the registry has no entry for
      it but the conversation exists, both participants are added first,
      then every member but `user` is sent the event, up to the first
      refused send. */
  ghost predicate Relayed(now: Snapshot, start: Snapshot, conversations: map<ConvId, Conversation>, cid: ConvId,
                          user: UserId, event: Event, sendOk: UserId -> bool)
  {
    var before := start.(members := ChatRoom(start.members, conversations, cid));
    Told(now, before, Recipients(MembersAt(before.members, cid), Some(user)), event, sendOk)
  }

  /** What a "typing" frame with `data` does. Without a conversation id
      nothing changes. Otherwise the sender's flag (false when absent) is
      recorded and broadcast to the other members, and `raised` is the
      broadcast stopping at a refused send. */
  twostate predicate TypingHandled(manager: ConnectionManager, user: UserId, data: Payload, sendOk: UserId -> bool,
                                   raised: bool)
    reads manager
  {
    if !Truthy(data.conversationId) then
      !raised && manager.State() == old(manager.State())
    else
      var cid := data.conversationId.value;
      var isTyping := data.isTyping.GetOr(false);
      && user in manager.GetTypingStatus(cid) && manager.GetTypingStatus(cid)[user] == isTyping
      && exists handled :: Broadcast(manager.State(),
                                     old(manager.State()).(typing := WithTyping(old(manager.typingStatus), cid, user, isTyping)),
                                     Recipients(old(manager.Members(cid)), Some(user)),
                                     TypingStatus(cid, user, isTyping), sendOk, handled, raised)
  }

  /** What a "keep" frame with `data` does. Unless the conversation id is
      present and names a conversation, nothing changes. Otherwise the
      sender's keep decision (false when absent) is recorded as
      `set_keep_status` does, with no check that the sender takes part,
      the activity time is set, and the decision and whether both now keep
      the conversation are broadcast to the other members. */
  twostate predicate KeepHandled(db: Store, manager: ConnectionManager, user: UserId, data: Payload, now: Time,
                                 sendOk: UserId -> bool)
    reads db, db.conversations.Values, manager
  {
    if !Truthy(data.conversationId) || data.conversationId.value !in db.conversations then
      manager.State() == old(manager.State()) && Untouched(db)
    else
      var cid := data.conversationId.value;
      var c := db.conversations[cid];
      var keep := data.keepStatus.GetOr(false);
      && KeepRecorded(db, cid, user, keep, now)
      && Told(manager.State(), old(manager.State()), Recipients(old(manager.Members(cid)), Some(user)),
              KeepStatus(cid, user, keep, c.BothKept()), sendOk)
  }

  /** The keep decision `keep` of `user` is recorded in the existing
      conversation `cid` as `set_keep_status` does, with no check that
      `user` takes part, and its activity time is set; nothing else in
      the database changes. */
  twostate predicate KeepRecorded(db: Store, cid: ConvId, user: UserId, keep: bool, now: Time)
    reads db, db.conversations.Values
  {
    && db.conversations == old(db.conversations)
    && cid in db.conversations
    && (forall id :: id in db.conversations && id != cid ==>
          && db.conversations[id].user1Keep == old(db.conversations[id].user1Keep)
          && db.conversations[id].user2Keep == old(db.conversations[id].user2Keep)
          && db.conversations[id].lastActivity == old(db.conversations[id].lastActivity))
    && var c := db.conversations[cid];
    && c.user1Keep == (if user == c.user1Id then keep else old(db.conversations[cid].user1Keep))
    && c.user2Keep == (if user != c.user1Id && user == c.user2Id then keep else old(db.conversations[cid].user2Keep))
    && c.lastActivity == now
  }

  /** What an "end_conversation" frame with `data` does. Unless the
      conversation id is present and names a conversation, nothing
      changes. Otherwise the ending is announced without a redirect URL (see
      `EndAnnounced`). The conversation stays active. */
  twostate predicate EndHandled(db: Store, manager: ConnectionManager, user: UserId, data: Payload,
                                sendOk: UserId -> bool)
    reads db, manager
  {
    if !Truthy(data.conversationId) || data.conversationId.value !in db.conversations then
      manager.State() == old(manager.State())
    else
      var cid := data.conversationId.value;
      EndAnnounced(manager.State(), old(manager.State()), cid, user, ConversationEnded(cid, user, None), sendOk,
                   Refusing(Recipients(old(manager.Members(cid)), None), old(manager.activeConnections), sendOk))
  }

  /** The registry went from `start` to `now` by announcing the ending
      `event` of conversation `cid`, asked for by `user`: every member,
      `user` included, is told up to the first refused send (`raised`), and
      then, unless the broadcast raised, `user` alone leaves the member
      set. */
  ghost predicate EndAnnounced(now: Snapshot, start: Snapshot, cid: ConvId, user: UserId, event: Event,
                               sendOk: UserId -> bool, raised: bool)
  {
    var audience := Recipients(MembersAt(start.members, cid), None);
    && (raised <==> Refusing(audience, start.active, sendOk))
    && exists handled ::
         var mid := PurgeMembers(start.members, Dropped(handled, start.active, sendOk));
         && Broadcast(now.(members := mid), start, audience, event, sendOk, handled, raised)
         && forall d: ConvId :: MembersAt(now.members, d) == if d == cid && !raised then MembersAt(mid, d) - {user} else MembersAt(mid, d)
  }

  /** The registry went from `start` to `now` by recording that `user` is
      typing or not in `cid` and telling the other members, up to the
      first refused send. */
  ghost predicate Typed(now: Snapshot, start: Snapshot, cid: ConvId, user: UserId, isTyping: bool,
                        sendOk: UserId -> bool)
  {
    var recipients := Recipients(MembersAt(start.members, cid), Some(user));
    exists handled :: Broadcast(now, start.(typing := WithTyping(start.typing, cid, user, isTyping)), recipients,
                                TypingStatus(cid, user, isTyping), sendOk, handled, Refusing(recipients, start.active, sendOk))
  }

  /** What handling `frame` does to the registry, from `start` to `now`,
      when `conversations` are the stored conversations: the registry part
      of `ChatHandled`, `TypingHandled`, `KeepHandled` and `EndHandled`,
      stated on snapshots. A frame without a handler or without data
      changes nothing. */
  ghost predicate FrameStep(now: Snapshot, start: Snapshot, conversations: map<ConvId, Conversation>, frame: Frame,
                            user: UserId, sendOk: UserId -> bool)
  {
    if !Handled(frame.kind) || frame.data.None? then now == start
    else
      var data := frame.data.value;
      var id := data.conversationId;
      if frame.kind == Some("chat_message") then
        if !Truthy(id) || data.content.None? || data.content == Some("") then now == start
        else exists event :: Relayed(now, start, conversations, id.value, user, event, sendOk)
      else if frame.kind == Some("typing") then
        if !Truthy(id) then now == start
        else Typed(now, start, id.value, user, data.isTyping.GetOr(false), sendOk)
      else if !Truthy(id) || id.value !in conversations then now == start
      else if frame.kind == Some("keep") then
        var keep := data.keepStatus.GetOr(false);
        exists bothKept :: Told(now, start, Recipients(MembersAt(start.members, id.value), Some(user)),
                                KeepStatus(id.value, user, keep, bothKept), sendOk)
      else
        EndAnnounced(now, start, id.value, user, ConversationEnded(id.value, user, None), sendOk,
                     Refusing(Recipients(MembersAt(start.members, id.value), None), start.active, sendOk))
  }

  /** Whether handling `frame` from `user` fails, ending the session, when
      the registry is `start`: a handled type without data, or a typing
      frame whose broadcast meets a registered socket that refuses. */
  ghost predicate FrameFails(start: Snapshot, frame: Frame, user: UserId, sendOk: UserId -> bool) {
    || Malformed(frame)
    || (&& frame.kind == Some("typing") && frame.data.Some? && Truthy(frame.data.value.conversationId)
        && Refusing(Recipients(MembersAt(start.members, frame.data.value.conversationId.value), Some(user)),
                    start.active, sendOk))
  }

  /** Frame `k` of a session took the registry from snapshot `k` to
      snapshot `k + 1`. */
  ghost predicate StepAt(states: seq<Snapshot>, frames: seq<Incoming>, k: nat,
                         conversations: map<ConvId, Conversation>, user: UserId)
    requires k < |frames| && k + 1 < |states|
  {
    FrameStep(states[k + 1], states[k], conversations, frames[k].frame, user, frames[k].sendOk)
  }

  /** Frame `k` of a session fails from snapshot `k`. */
  ghost predicate FailsAt(states: seq<Snapshot>, frames: seq<Incoming>, k: nat, user: UserId)
    requires k < |frames| && k < |states|
  {
    FrameFails(states[k], frames[k].frame, user, frames[k].sendOk)
  }

  /** `states` are the registry snapshots around the first `n` frames of
      a session: each follows from the one before by that frame's step. */
  ghost predicate Replayed(states: seq<Snapshot>, frames: seq<Incoming>, n: nat,
                           conversations: map<ConvId, Conversation>, user: UserId)
  {
    && n <= |frames| && |states| == n + 1
    && forall k :: 0 <= k < n ==> StepAt(states, frames, k, conversations, user)
  }

  /** Handling one more frame extends the snapshots by one. */
  lemma {:induction false} ReplayedStep(states: seq<Snapshot>, frames: seq<Incoming>, n: nat,
                                        conversations: map<ConvId, Conversation>, user: UserId, next: Snapshot)
    requires Replayed(states, frames, n, conversations, user) && n < |frames|
    requires FrameStep(next, states[n], conversations, frames[n].frame, user, frames[n].sendOk)
    ensures Replayed(states + [next], frames, n + 1, conversations, user)
    ensures (states + [next])[n + 1] == next
  {
    var longer := states + [next];
    forall k | 0 <= k < n + 1
      ensures StepAt(longer, frames, k, conversations, user)
    {
      if k < n {
        assert StepAt(states, frames, k, conversations, user);
        assert longer[k + 1] == states[k + 1] && longer[k] == states[k];
      }
    }
  }

  /** None of the first `n` frames of a session failed. */
  ghost predicate Continued(states: seq<Snapshot>, frames: seq<Incoming>, n: nat, user: UserId)
    requires n <= |frames| && n <= |states|
  {
    forall k :: 0 <= k < n ==> !FailsAt(states, frames, k, user)
  }

  /** Extending the snapshots keeps what is known of the frames before:
      whether frame `n` fails is read from snapshot `n` as before, and if
      it does not fail, none of the first `n + 1` frames failed. */
  lemma {:induction false} ContinuedStep(states: seq<Snapshot>, frames: seq<Incoming>, n: nat, user: UserId, next: Snapshot)
    requires n < |frames| && n < |states| && Continued(states, frames, n, user)
    ensures Continued(states + [next], frames, n, user)
    ensures FailsAt(states + [next], frames, n, user) <==> FailsAt(states, frames, n, user)
    ensures !FailsAt(states, frames, n, user) ==> Continued(states + [next], frames, n + 1, user)
  {
    var longer := states + [next];
    forall k | 0 <= k <= n
      ensures FailsAt(longer, frames, k, user) <==> FailsAt(states, frames, k, user)
    {
      assert longer[k] == states[k];
    }
  }

  /** A session after `n` frames: `states` replay them from `start`, no
      frame before the last one failed, and `failed` is whether the last
      one did (none did if `failed` is false). */
  ghost predicate Session(states: seq<Snapshot>, frames: seq<Incoming>, n: nat, failed: bool, start: Snapshot,
                          conversations: map<ConvId, Conversation>, user: UserId)
  {
    && Replayed(states, frames, n, conversations, user)
    && states[0] == start
    && (failed ==> 0 < n && Continued(states, frames, n - 1, user) && FailsAt(states, frames, n - 1, user))
    && (!failed ==> Continued(states, frames, n, user))
  }

  /** Handling the next frame of a session that has not failed: the step
      from the last snapshot extends the session, and it has failed exactly
      when that frame fails. */
  lemma SessionStep(states: seq<Snapshot>, frames: seq<Incoming>, n: nat, start: Snapshot,
                    conversations: map<ConvId, Conversation>, user: UserId, next: Snapshot, failed: bool)
    requires Session(states, frames, n, false, start, conversations, user) && n < |frames|
    requires FrameStep(next, states[n], conversations, frames[n].frame, user, frames[n].sendOk)
    requires failed <==> FrameFails(states[n], frames[n].frame, user, frames[n].sendOk)
    ensures Session(states + [next], frames, n + 1, failed, start, conversations, user)
    ensures (states + [next])[n + 1] == next
  {
    ReplayedStep(states, frames, n, conversations, user, next);
    ContinuedStep(states, frames, n, user, next);
  }

  /** The registry `now` right after `user` connected on `socket` from
      `start` and, when `joined` names a conversation, joined its member
      set. */
  ghost predicate Opened(now: Snapshot, start: Snapshot, user: UserId, socket: SocketId, joined: Option<ConvId>) {
    && now.active == start.active[user := socket]
    && (forall d: ConvId :: MembersAt(now.members, d) ==
          if joined == Some(d) then MembersAt(start.members, d) + {user} else MembersAt(start.members, d))
    && now.typing == start.typing && now.outbox == start.outbox
  }

  /** The registry `now` after `user` disconnected from `last`: its
      socket, memberships and typing flags are gone. */
  ghost predicate Closed(now: Snapshot, last: Snapshot, user: UserId) {
    now == Snapshot(last.active - {user}, PurgeMembers(last.members, {user}), PurgeTyping(last.typing, {user}), last.outbox)
  }

  /** After a disconnect the user is nowhere in the registry. */
  lemma ClosedForgets(now: Snapshot, last: Snapshot, user: UserId)
    requires Closed(now, last, user)
    ensures user !in now.active
    ensures forall c :: user !in MembersAt(now.members, c)
    ensures forall c :: user !in TypingAt(now.typing, c)
  { }

  /** Announces the ending `event` of conversation `cid` to its members
      and, unless that raises, takes `user` off its member set. */
  method AnnounceEnd(manager: ConnectionManager, cid: ConvId, user: UserId, event: Event, sendOk: UserId -> bool)
    returns (raised: bool)
    requires manager.Valid()
    modifies manager
    ensures manager.Valid()
    ensures EndAnnounced(manager.State(), old(manager.State()), cid, user, event, sendOk, raised)
  {
    var successes, targets;
    ghost var handled;
    ghost var start := manager.State();
    ghost var audience := Recipients(MembersAt(start.members, cid), None);
    successes, targets, raised, handled := manager.SendToConversation(event, cid, None, sendOk);
    ghost var mid := manager.conversationConnections;
    assert mid == PurgeMembers(start.members, Dropped(handled, start.active, sendOk));
    if !raised {
      manager.RemoveFromConversation(cid, user);
      forall d: ConvId
        ensures MembersAt(manager.conversationConnections, d) == if d == cid then MembersAt(mid, d) - {user} else MembersAt(mid, d)
      {
        assert manager.Members(d) == MembersAt(manager.conversationConnections, d);
      }
    }
    assert Broadcast(manager.State().(members := PurgeMembers(start.members, Dropped(handled, start.active, sendOk))),
                     start, audience, event, sendOk, handled, raised);
    assert forall d: ConvId :: MembersAt(manager.conversationConnections, d) ==
             var m := MembersAt(PurgeMembers(start.members, Dropped(handled, start.active, sendOk)), d);
             if d == cid && !raised then m - {user} else m;
  }

  class WebSocketHandler {
    const manager: ConnectionManager

    constructor (manager: ConnectionManager)
      ensures this.manager == manager
    {
      this.manager := manager;
    }

    /** On connect: if `user` takes part in an active conversation, joins
        them to that conversation's member set; otherwise nothing changes. */
    method AutoAddToConversation(db: Store, user: UserId) returns (joined: Option<ConvId>)
      requires db.Valid() && manager.Valid()
      modifies manager
      ensures manager.Valid()
      ensures joined.Some? <==> db.InActiveConversation(user)
      ensures joined.Some? ==>
                && joined.value in db.conversations
                && db.conversations[joined.value].isActive
                && db.conversations[joined.value].IsParticipant(user)
      ensures forall d: ConvId :: manager.Members(d) ==
                if joined == Some(d) then old(manager.Members(d)) + {user} else old(manager.Members(d))
      ensures manager.activeConnections == old(manager.activeConnections)
      ensures manager.typingStatus == old(manager.typingStatus) && manager.outbox == old(manager.outbox)
    {
      var conversation := db.FindActiveConversationOf(user);
      if conversation.Some? {
        var c := conversation.value;
        assert db.conversations[c.id] == c;
        manager.AddToConversation(c.id, user);
        joined := Some(c.id);
      } else {
        joined := None;
      }
    }

    /** A "chat_message" frame; see `ChatHandled`. A broadcast that raises
        is caught here, after the message was committed. */
    method HandleChatMessage(db: Store, user: UserId, data: Payload, now: Time, sendOk: UserId -> bool)
      requires db.Valid() && manager.Valid()
      modifies db`messages, db`nextMessageId, db.conversations.Values`lastActivity, manager
      ensures db.Valid() && manager.Valid()
      ensures ChatHandled(db, manager, user, data, now, sendOk)
      ensures KeepsUntouched(db)
      ensures db.messages == old(db.messages) + NewMessages(Frame(Some("chat_message"), Some(data)), user, now, old(db.nextMessageId))
    {
      if !Truthy(data.conversationId) || data.content.None? || data.content == Some("") {
        return;
      }
      var cid := data.conversationId.value;
      ghost var start := manager.State();
      var message := StoreMessage(db, user, cid, data.content.value, data.messageType.GetOr("text"), now);
      assert start == old(manager.State());
      var event := ChatMessage(message.id, cid, user, message.content, message.messageType, now);
      Relay(db, user, cid, event, sendOk);
    }

    /** The registry part of a chat message; see `Relayed`. */
    method Relay(db: Store, user: UserId, cid: ConvId, event: Event, sendOk: UserId -> bool)
      requires manager.Valid()
      modifies manager
      ensures manager.Valid()
      ensures Relayed(manager.State(), old(manager.State()), db.conversations, cid, user, event, sendOk)
    {
      OpenRoom(db, cid);
      ghost var before := manager.State();
      var successes, targets, raised, handled := manager.SendToConversation(event, cid, Some(user), sendOk);
      ghost var recipients := Recipients(MembersAt(before.members, cid), Some(user));
      assert Told(manager.State(), before, recipients, event, sendOk) by {
        assert Broadcast(manager.State(), before, recipients, event, sendOk, handled, raised);
      }
    }

    /** The database part of a chat message: the new row and the refreshed
        activity time of its conversation, when there is one. */
    method StoreMessage(db: Store, user: UserId, cid: ConvId, content: string, messageType: string, now: Time)
      returns (message: Message)
      requires db.Valid()
      modifies db`messages, db`nextMessageId, db.conversations.Values`lastActivity
      ensures db.Valid()
      ensures message == Message(old(db.nextMessageId), cid, user, content, messageType, now)
      ensures db.messages == old(db.messages) + [message] && db.nextMessageId == old(db.nextMessageId) + 1
      ensures KeepsUntouched(db)
      ensures cid in db.conversations ==> db.conversations[cid].lastActivity == now
      ensures forall id :: id in db.conversations && id != cid ==>
                db.conversations[id].lastActivity == old(db.conversations[id].lastActivity)
    {
      message := Message(db.nextMessageId, cid, user, content, messageType, now);
      db.messages := db.messages + [message];
      db.nextMessageId := db.nextMessageId + 1;
      if cid in db.conversations {
        db.conversations[cid].lastActivity := now;
      }
    }

    /** Before a chat message is broadcast: a conversation the registry has
        no entry for gets both of its participants as members. */
    method OpenRoom(db: Store, cid: ConvId)
      requires manager.Valid()
      modifies manager
      ensures manager.Valid()
      ensures manager.State() == old(manager.State()).(members := ChatRoom(old(manager.conversationConnections), db.conversations, cid))
    {
      if cid !in manager.conversationConnections && cid in db.conversations {
        var conversation := db.conversations[cid];
        manager.AddToConversation(cid, conversation.user1Id);
        manager.AddToConversation(cid, conversation.user2Id);
        forall d: ConvId | true
          ensures MembersAt(manager.conversationConnections, d) ==
                  MembersAt(ChatRoom(old(manager.conversationConnections), db.conversations, cid), d)
        {
          assert manager.Members(d) == MembersAt(manager.conversationConnections, d);
        }
        MembersExtensional(manager.conversationConnections,
                           ChatRoom(old(manager.conversationConnections), db.conversations, cid));
      }
    }

    /** A "typing" frame; see `TypingHandled`. Nothing here catches a
        broadcast that raises: `raised` is that error leaving the handler. */
    method HandleTyping(user: UserId, data: Payload, sendOk: UserId -> bool) returns (raised: bool)
      requires manager.Valid()
      modifies manager
      ensures manager.Valid()
      ensures TypingHandled(manager, user, data, sendOk, raised)
    {
      raised := false;
      if Truthy(data.conversationId) {
        ghost var handled;
        raised, handled := manager.BroadcastTypingStatus(data.conversationId.value, user, data.isTyping.GetOr(false), sendOk);
      }
    }

    /** A "keep" frame; see `KeepHandled`. A broadcast that raises is
        caught here, after the decision was committed. */
    method HandleKeep(db: Store, user: UserId, data: Payload, now: Time, sendOk: UserId -> bool)
      requires db.Valid() && manager.Valid()
      modifies db.conversations.Values`user1Keep, db.conversations.Values`user2Keep
      modifies db.conversations.Values`lastActivity, manager
      ensures db.Valid() && manager.Valid()
      ensures KeepHandled(db, manager, user, data, now, sendOk)
    {
      if !Truthy(data.conversationId) || data.conversationId.value !in db.conversations {
        return;
      }
      var cid := data.conversationId.value;
      var keep := data.keepStatus.GetOr(false);
      ghost var before := manager.State();
      var c := RecordKeep(db, cid, user, keep, now);
      assert before == old(manager.State());
      var event := KeepStatus(cid, user, keep, c.BothKept());
      label recorded:
      TellKeep(cid, user, event, sendOk);
      assert unchanged@recorded(db);
      assert forall d :: d in db.conversations ==> unchanged@recorded(db.conversations[d]);
      assert event == KeepStatus(cid, user, keep, db.conversations[cid].BothKept());
      assert KeepRecorded(db, cid, user, keep, now);
    }

    /** The registry part of a keep decision: the other members are told,
        up to the first refused send, whose error is caught. */
    method TellKeep(cid: ConvId, user: UserId, event: Event, sendOk: UserId -> bool)
      requires manager.Valid()
      modifies manager
      ensures manager.Valid()
      ensures Told(manager.State(), old(manager.State()), Recipients(old(manager.Members(cid)), Some(user)), event, sendOk)
    {
      var successes, targets, raised, handled := manager.SendToConversation(event, cid, Some(user), sendOk);
      assert Broadcast(manager.State(), old(manager.State()), Recipients(old(manager.Members(cid)), Some(user)),
                       event, sendOk, handled, raised);
    }

    /** The database part of a keep decision. */
    method RecordKeep(db: Store, cid: ConvId, user: UserId, keep: bool, now: Time) returns (c: Conversation)
      requires db.Valid() && cid in db.conversations
      modifies db.conversations.Values`user1Keep, db.conversations.Values`user2Keep
      modifies db.conversations.Values`lastActivity
      ensures db.Valid() && c == db.conversations[cid]
      ensures KeepRecorded(db, cid, user, keep, now)
    {
      c := db.conversations[cid];
      c.SetKeepStatus(user, keep);
      c.lastActivity := now;
    }

    /** An "end_conversation" frame; see `EndHandled`. A broadcast that
        raises is caught here, after it skipped the removal of the sender. */
    method HandleEndConversation(db: Store, user: UserId, data: Payload, sendOk: UserId -> bool)
      requires manager.Valid()
      modifies manager
      ensures manager.Valid()
      ensures EndHandled(db, manager, user, data, sendOk)
      ensures Untouched(db)
    {
      if !Truthy(data.conversationId) || data.conversationId.value !in db.conversations {
        return;
      }
      var cid := data.conversationId.value;
      var raised := AnnounceEnd(manager, cid, user, ConversationEnded(cid, user, None), sendOk);
    }

    /** Dispatches one frame by its type to its handler. A handled type
        without "data" raises `KeyError` before anything happens, and a
        typing broadcast may raise; `failed` is an error leaving the
        dispatch, which ends the session. Unknown types are ignored. */
    method ProcessMessage(db: Store, user: UserId, frame: Frame, now: Time, sendOk: UserId -> bool) returns (failed: bool)
      requires db.Valid() && manager.Valid()
      modifies db`messages, db`nextMessageId, db.conversations.Values`user1Keep, db.conversations.Values`user2Keep
      modifies db.conversations.Values`lastActivity, manager
      ensures db.Valid() && manager.Valid()
      ensures db.conversations == old(db.conversations) && db.users == old(db.users)
      ensures !Handled(frame.kind) || frame.data.None? ==>
                && failed == Handled(frame.kind)
                && manager.State() == old(manager.State())
                && db.messages == old(db.messages) && db.nextMessageId == old(db.nextMessageId)
                && Untouched(db)
      ensures frame.kind == Some("chat_message") && frame.data.Some? ==>
                !failed && ChatHandled(db, manager, user, frame.data.value, now, sendOk) && KeepsUntouched(db)
      ensures frame.kind == Some("typing") && frame.data.Some? ==>
                && TypingHandled(manager, user, frame.data.value, sendOk, failed)
                && db.messages == old(db.messages) && db.nextMessageId == old(db.nextMessageId)
                && Untouched(db)
      ensures frame.kind == Some("keep") && frame.data.Some? ==>
                && !failed && KeepHandled(db, manager, user, frame.data.value, now, sendOk)
                && db.messages == old(db.messages) && db.nextMessageId == old(db.nextMessageId)
      ensures frame.kind == Some("end_conversation") && frame.data.Some? ==>
                && !failed && EndHandled(db, manager, user, frame.data.value, sendOk)
                && db.messages == old(db.messages) && db.nextMessageId == old(db.nextMessageId)
                && Untouched(db)
      ensures db.messages == old(db.messages) + NewMessages(frame, user, now, old(db.nextMessageId))
      ensures db.nextMessageId == old(db.nextMessageId) + |NewMessages(frame, user, now, old(db.nextMessageId))|
      ensures Malformed(frame) ==> failed
      ensures failed ==> MayFail(frame)
      ensures FrameStep(manager.State(), old(manager.State()), db.conversations, frame, user, sendOk)
      ensures failed <==> FrameFails(old(manager.State()), frame, user, sendOk)
    {
      if !Handled(frame.kind) {
        return false;
      }
      if frame.data.None? {
        return true;
      }
      var data := frame.data.value;
      failed := false;
      if frame.kind == Some("chat_message") {
        HandleChatMessage(db, user, data, now, sendOk);
      } else if frame.kind == Some("typing") {
        failed := HandleTyping(user, data, sendOk);
      } else if frame.kind == Some("keep") {
        HandleKeep(db, user, data, now, sendOk);
      } else {
        HandleEndConversation(db, user, data, sendOk);
      }
    }

    /** What the session loop needs to know of one dispatched frame: the
        rows it stores, its step on the registry and whether it fails. */
    method Dispatch(db: Store, user: UserId, incoming: Incoming) returns (failed: bool)
      requires db.Valid() && manager.Valid()
      modifies db`messages, db`nextMessageId, db.conversations.Values`user1Keep, db.conversations.Values`user2Keep
      modifies db.conversations.Values`lastActivity, manager
      ensures db.Valid() && manager.Valid()
      ensures db.conversations == old(db.conversations) && db.users == old(db.users)
      ensures db.messages == old(db.messages) + NewMessages(incoming.frame, user, incoming.at, old(db.nextMessageId))
      ensures db.nextMessageId == old(db.nextMessageId) + |NewMessages(incoming.frame, user, incoming.at, old(db.nextMessageId))|
      ensures FrameStep(manager.State(), old(manager.State()), db.conversations, incoming.frame, user, incoming.sendOk)
      ensures failed <==> FrameFails(old(manager.State()), incoming.frame, user, incoming.sendOk)
    {
      failed := ProcessMessage(db, user, incoming.frame, incoming.at, incoming.sendOk);
    }

    /** One step of the session loop: frame `i` is dispatched. The
        session grows by that frame's step from the last snapshot, it has
        failed exactly when that frame fails, and its stored rows grow from
        those of the first `i` frames to those of the first `i + 1`. */
    method HandleFrame(db: Store, user: UserId, frames: seq<Incoming>, i: nat,
                       ghost states: seq<Snapshot>, ghost start: Snapshot,
                       ghost messages: seq<Message>, ghost next: MessageId, ghost stored: seq<Message>)
      returns (failed: bool, ghost states': seq<Snapshot>, ghost stored': seq<Message>)
      requires i < |frames| && db.Valid() && manager.Valid()
      requires Session(states, frames, i, false, start, db.conversations, user) && states[i] == manager.State()
      requires stored == SessionMessages(frames, i, user, next)
      requires db.messages == messages + stored && db.nextMessageId == next + |stored|
      modifies db`messages, db`nextMessageId, db.conversations.Values`user1Keep, db.conversations.Values`user2Keep
      modifies db.conversations.Values`lastActivity, manager
      ensures db.Valid() && manager.Valid()
      ensures db.conversations == old(db.conversations) && db.users == old(db.users)
      ensures Session(states', frames, i + 1, failed, start, db.conversations, user) && states'[i + 1] == manager.State()
      ensures stored' == SessionMessages(frames, i + 1, user, next)
      ensures db.messages == messages + stored' && db.nextMessageId == next + |stored'|
    {
      ghost var added := NewMessages(frames[i].frame, user, frames[i].at, next + |stored|);
      failed := Dispatch(db, user, frames[i]);
      SessionStep(states, frames, i, start, db.conversations, user, manager.State(), failed);
      states' := states + [manager.State()];
      SessionMessagesNext(frames, i, user, next, messages, stored);
      stored' := stored + added;
    }

    /** The frame loop of a session: frames are handled in order until they
        run out or handling one fails. `handled` counts the frames handled:
        all of them, or up to the one that failed, which was malformed or a
        typing frame. Exactly the messages of the chat frames handled are
        stored. */
    method HandleFrames(db: Store, user: UserId, frames: seq<Incoming>)
      returns (ghost handled: nat, ghost states: seq<Snapshot>)
      requires db.Valid() && manager.Valid()
      modifies db`messages, db`nextMessageId, db.conversations.Values`user1Keep, db.conversations.Values`user2Keep
      modifies db.conversations.Values`lastActivity, manager
      ensures db.Valid() && manager.Valid()
      ensures handled <= |frames|
      ensures Replayed(states, frames, handled, db.conversations, user)
      ensures states[0] == old(manager.State()) && states[handled] == manager.State()
      ensures forall k :: 0 <= k < handled - 1 ==> !FailsAt(states, frames, k, user)
      ensures handled < |frames| ==>
                0 < handled && FrameFails(states[handled - 1], frames[handled - 1].frame, user, frames[handled - 1].sendOk)
      ensures db.messages == old(db.messages) + SessionMessages(frames, handled, user, old(db.nextMessageId))
      ensures db.nextMessageId == old(db.nextMessageId) + |SessionMessages(frames, handled, user, old(db.nextMessageId))|
      ensures db.conversations == old(db.conversations) && db.users == old(db.users)
    {
      ghost var messages, next := db.messages, db.nextMessageId;
      ghost var stored: seq<Message> := [];
      states := [manager.State()];
      var i := 0;
      var failed := false;
      while i < |frames| && !failed
        invariant 0 <= i <= |frames|
        invariant db.Valid() && manager.Valid()
        invariant db.conversations == old(db.conversations) && db.users == old(db.users)
        invariant Session(states, frames, i, failed, old(manager.State()), db.conversations, user)
        invariant states[i] == manager.State()
        invariant stored == SessionMessages(frames, i, user, next)
        invariant db.messages == messages + stored && db.nextMessageId == next + |stored|
        decreases |frames| - i
      {
        failed, states, stored := HandleFrame(db, user, frames, i, states, old(manager.State()), messages, next, stored);
        i := i + 1;
      }
      handled := i;
    }

    /** Registers the socket of `user` and joins them to the active
        conversation they take part in, if any (`joined`). */
    method Open(db: Store, user: UserId, socket: SocketId) returns (joined: Option<ConvId>)
      requires db.Valid() && manager.Valid()
      modifies manager
      ensures manager.Valid()
      ensures joined.Some? <==> db.InActiveConversation(user)
      ensures joined.Some? ==>
                && joined.value in db.conversations
                && db.conversations[joined.value].isActive
                && db.conversations[joined.value].IsParticipant(user)
      ensures Opened(manager.State(), old(manager.State()), user, socket, joined)
    {
      manager.Connect(user, socket);
      joined := AutoAddToConversation(db, user);
    }

    /** One websocket session of `user`: register the socket, join the
        current conversation (`joined`), handle frames until they run out
        or handling one fails (see `HandleFrames`), then disconnect.
        `states` are the registry snapshots between frames: the first is
        the registry right after registering and joining, and the session
        ends with `user` purged from the last. */
    method HandleWebsocket(db: Store, user: UserId, socket: SocketId, frames: seq<Incoming>)
      returns (ghost joined: Option<ConvId>, ghost handled: nat, ghost states: seq<Snapshot>)
      requires db.Valid() && manager.Valid()
      modifies db`messages, db`nextMessageId, db.conversations.Values`user1Keep, db.conversations.Values`user2Keep
      modifies db.conversations.Values`lastActivity, manager
      ensures db.Valid() && manager.Valid()
      ensures joined.Some? <==> old(db.InActiveConversation(user))
      ensures joined.Some? ==>
                && joined.value in db.conversations
                && old(db.conversations[joined.value].isActive)
                && db.conversations[joined.value].IsParticipant(user)
      ensures handled <= |frames|
      ensures Replayed(states, frames, handled, db.conversations, user)
      ensures Opened(states[0], old(manager.State()), user, socket, joined)
      ensures forall k :: 0 <= k < handled - 1 ==> !FailsAt(states, frames, k, user)
      ensures handled < |frames| ==>
                0 < handled && FrameFails(states[handled - 1], frames[handled - 1].frame, user, frames[handled - 1].sendOk)
      ensures db.messages == old(db.messages) + SessionMessages(frames, handled, user, old(db.nextMessageId))
      ensures db.nextMessageId == old(db.nextMessageId) + |SessionMessages(frames, handled, user, old(db.nextMessageId))|
      ensures db.conversations == old(db.conversations) && db.users == old(db.users)
      ensures Closed(manager.State(), states[handled], user)
    {
      var found := Open(db, user, socket);
      joined := found;
      handled, states := HandleFrames(db, user, frames);
      // Reached both when the client goes away and when an error ends the
      // session.
      manager.Disconnect(user);
    }
  }
}
