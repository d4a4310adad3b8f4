# Chat matching server — verified model

This project models the server core of a random chat-matching web service.
Users register and fill in a profile, then ask to be matched. A matching
engine scores the other searching users and pairs the caller with one of
them. The pair gets a conversation with a five-minute keep-or-leave
countdown. A registry of websocket connections then fans chat messages,
typing flags, keep decisions and end notices out to the conversation's
members.

The model has seven modules, one per concern of the source:

- `Wrappers` (wrappers.dfy): `Option` and `Result`.
- `Models` (models.dfy): the user, message and conversation rows of
  app/models.py. A conversation is a class whose keep flags, activity
  time and active flag are updated in place. Its countdown is a function
  of the clock reading.
- `Database` (store.dfy): the store behind the handlers, as a class. It
  has maps of users and conversations, the message log, and the next id
  of each table. It also holds the queries the handlers run.
- `Matching` (matching.dfy): the compatibility score, `find_match`,
  `create_conversation`, `end_conversation` and
  `cleanup_inactive_conversations` of app/matching.py.
- `Registry` (registry.dfy): the `ConnectionManager` of
  app/websocket_manager.py. It keeps three in-place maps: user to socket,
  conversation to member set, and conversation to typing flags. Every
  accepted send is appended to an outbox.
- `Realtime` (realtime.dfy): the `WebSocketHandler` of
  app/websocket_manager.py. It covers the session loop, frame dispatch and
  the chat, typing, keep and end handlers.
- `Api` (api.dfy): the decision logic of the `/register`, `/profile`,
  `/search`, `/cancel-search`, `/keep` and `/end` routes of app/main.py.

How the outside world is represented:

- **Clock.** Every reading is a `now: Time` parameter, in seconds as an
  exact `real`.
- **Socket sends.** Each send's outcome is handed in as `sendOk`, which
  says whether the user's socket accepts it. The socket itself is an
  opaque `SocketId`.
- **Random pick.** The random choice among low-scoring candidates is a
  nondeterministic `:|` pick.
- **Queries without an order.** SQL queries that take `.first()` without
  an ordering are also nondeterministic picks.

Notes on what the source does, which the model follows:

- Conversations end in two ways only. `POST /end` ends the one it names
  (app/main.py:397-398). `cleanup_inactive_conversations` ends those idle
  for more than 15 minutes with neither keep flag set
  (app/matching.py:217-229), but nothing in the source schedules it. The
  five-minute countdown is reported to clients and ends nothing on its own.
- The paired state is written "connected" (app/matching.py:173-174).
- Time left is truncated to whole seconds with `int()` (app/models.py:87).
- A conversation broadcast sends to the members one after another, in
  the member set's own order, while iterating that live set
  (app/websocket_manager.py:68-73). A refused send disconnects its member
  (app/websocket_manager.py:48-52), which removes it from the very set
  being iterated. Python then raises `RuntimeError` at the next step. So
  a broadcast stops right after the first refused send, and the model
  says so (`Registry.Broadcast`).
- What happens to that error depends on the caller:
  - The chat and keep handlers catch it after their database work
    (app/websocket_manager.py:252, 297).
  - The end handler catches it before the sender leaves the member set
    (app/websocket_manager.py:327-331).
  - The typing handler does not catch it (app/websocket_manager.py:258-264).
    It leaves `process_message` and ends the session, which disconnects
    the user (app/websocket_manager.py:144-148).
  - `POST /end` does not catch it either (app/main.py:412-415). The
    ending is already committed, the caller stays a member and the
    route answers with a server error.

## Model

| member | source | states |
|---|---|---|
| Models.Conversation.constructor | app/models.py:41-51 | A new conversation has both keep flags false and is active. Its countdown starts now, with the full 300 seconds left. |
| Models.Conversation.GetKeepStatus | app/models.py:58-64 | The first participant reads as its first flag, and a second participant distinct from the first reads as its second flag. Anyone else reads as not keeping, and a participant reads as keeping whenever both flags are set. |
| Models.Conversation.SetKeepStatus | app/models.py:66-71 | The first participant's id sets only the first flag, the second's only the second, and any other id changes nothing. Afterwards a participant reads back the new value, and clearing either flag makes `BothKept` false. |
| Models.Conversation.BothKept | app/models.py:73-75 | Holds exactly when both keep flags are set, whoever the participants are. For distinct participants this is exactly when both read as keeping. |
| Models.Trunc | app/models.py:87 | Python's `int()` on a float: the integer part, within one of the argument on the side of zero. |
| Models.TruncMonotonic | app/models.py:87 | `int()` is monotone. |
| Models.Conversation.CountdownTimeLeft | app/models.py:77-87 | Time left is never negative. It is 300 when no start time is recorded and at most 300 once the start time has passed. It is zero exactly when more than 299 seconds have elapsed, and otherwise it is the whole part of 300 minus the elapsed time. |
| Models.Conversation.IsCountdownExpired | app/models.py:89-91 | Expired exactly when the time left is zero. |
| Models.CountdownNonIncreasing | app/models.py:83-87 | Time left never grows as the clock advances. |
| Models.ExpiredStaysExpired | app/models.py:89-91 | Once expired, a conversation stays expired. |
| Models.ExpiredAfterWindow | app/models.py:83-91 | A started countdown has expired 300 seconds after its start. |
| Models.NewUser | app/main.py:116-120 | A registered user has the given username, no profile, no interests and state "waiting". |
| Database.Store.SearchingUsersExcept | app/matching.py:16-19 | Returns exactly the other users whose state is "searching". |
| Database.Store.FindActiveConversationOf | app/websocket_manager.py:159-162 | Finds a conversation exactly when the user takes part in an active one, and the one found is active with the user as participant. |
| Database.Store.ParticipantConversation | app/main.py:331-334 | Finds conversation `id` exactly when it exists and has the caller as a participant, whether active or not. |
| Database.Release | app/matching.py:189-196 | Sets the given users to "waiting" and changes nothing else: same keys, other rows untouched. |
| Database.ReleaseIdempotent | app/matching.py:183-198 | Returning the same users to "waiting" twice is doing it once, so ending a conversation twice gives the same users table. |
| Database.ReleaseOne | app/matching.py:189-196 | Releasing one user sets that user alone to "waiting", and releasing a missing user changes nothing. |
| Database.ReleaseTwice | app/matching.py:228-229 | Releasing one group and then another releases their union. |
| Matching.GoalsCompatibleSymmetric | app/matching.py:124-134 | Goal compatibility is symmetric. |
| Matching.PreferenceFactor | app/matching.py:90-101 | The factor is 1 exactly when the preference is "Tất cả" or equals the other user's gender, and 0 otherwise. |
| Matching.GoalFactor | app/matching.py:103-110 | The factor is 1 exactly for equal goals, 0.7 exactly for distinct compatible goals and 0.3 exactly for distinct incompatible goals, and it takes no other value. |
| Matching.InterestFactor | app/matching.py:116-120 | min(\|common\|/2, 1): 0 exactly when nothing is shared, 0.5 exactly when one interest is shared and 1 exactly when at least two are, and no other value. |
| Matching.FactorCount | app/matching.py:112-122 | Four factors exactly when both users list interests, three otherwise. |
| Matching.Compatibility | app/matching.py:85-122 | The score lies in [0, 1]. |
| Matching.CompatibilitySymmetric | app/matching.py:85-134 | The score does not depend on which user asks. |
| Matching.BestMatchesAcceptEachOther | app/matching.py:85-122 | A score of at least 0.8 implies both gender preferences accept the other user. |
| Matching.PerfectCompatibility | app/matching.py:85-122 | A score of 1 holds exactly when every factor that takes part is full. |
| Matching.FirstMax | app/matching.py:67-75 | The head of a bucket after the stable sort by descending score: a maximal score, and the first entry that has it. |
| Matching.MatchingService.Classify | app/matching.py:35-61 | Every entry of each bucket is an eligible candidate (another user, searching, with no active conversation with the caller) with its own score. The best bucket holds scores of at least 0.8, the good bucket scores in [0.5, 0.8) and the rest scores below 0.5. Conversely, every eligible candidate lands in the bucket its score selects. |
| Matching.MatchingService.FindMatch | app/matching.py:11-79 | Returns no partner exactly when the user is no longer searching or no candidate is eligible. A returned partner is eligible: another user, searching, with no active conversation with the user. If any eligible candidate scores ≥ 0.8, the partner does too. If any scores ≥ 0.5, the partner has the highest score of all eligible candidates. |
| Matching.MatchingService.CreateConversation | app/matching.py:136-181 | Fails exactly when a user is missing, either user is not searching, or an active conversation already pairs them, with that error, and then changes nothing. On success it adds an active conversation under the next id with the given users and type, both flags false and countdown started now. Both users become "connected", and unique active pairs are preserved. |
| Matching.MatchingService.ConnectPair | app/matching.py:173-174 | Both users become "connected" and nothing else in the users table changes. |
| Matching.MatchingService.EndConversation | app/matching.py:183-198 | The conversation becomes inactive and both participants that exist go back to "waiting". No other row changes, and unique active pairs are preserved. |
| Matching.MatchingService.ReleasePair | app/matching.py:189-196 | Both participants that exist go back to "waiting": the users table becomes `Release` of the old one over the pair. |
| Matching.MatchingService.StaleConversations | app/matching.py:219-226 | Lists exactly the active conversations idle for more than 15 minutes with neither keep flag set. |
| Matching.MatchingService.EndStale | app/matching.py:227-229 | One iteration of the cleanup loop: that conversation alone becomes inactive, and the released users grow by its two participants. |
| Matching.MatchingService.CleanupInactiveConversations | app/matching.py:217-229 | Exactly the stale conversations become inactive, and exactly their participants go back to "waiting". |
| Registry.PurgeMembers | app/websocket_manager.py:27-32 | The removed users are taken out of every member set and emptied sets are dropped. Every other member stays. |
| Registry.PurgeTyping | app/websocket_manager.py:34-39 | The removed users are taken out of every typing map and emptied maps are dropped. Every other flag stays. |
| Registry.PurgeNobody | app/websocket_manager.py:22-39 | Under the no-empty invariant, purging nobody changes nothing. |
| Registry.PurgeIdempotent | app/websocket_manager.py:22-39 | Disconnecting a user twice is disconnecting once. |
| Registry.MembersStep | app/websocket_manager.py:27-32 | One iteration of the member-set loop of `disconnect` removes the user from that conversation only. |
| Registry.TypingStep | app/websocket_manager.py:34-39 | One iteration of the typing loop of `disconnect` removes the user's flag from that conversation only. |
| Registry.BroadcastStart | app/websocket_manager.py:57-67 | Before the first send, the broadcast has reached nobody and disconnected nobody. |
| Registry.BroadcastAccepted | app/websocket_manager.py:69-73 | A recipient whose socket accepts gets exactly one delivery, on its registered socket. |
| Registry.BroadcastRefused | app/websocket_manager.py:48-53 | A recipient whose socket refuses is disconnected: taken out of the connections, member sets and typing maps. |
| Registry.BroadcastAbsent | app/websocket_manager.py:54-55 | A recipient without a registered socket is skipped and nothing changes. |
| Registry.BroadcastTellsAll | app/websocket_manager.py:57-73 | A broadcast that did not raise delivered the event to every recipient with a socket, on that socket, and every such socket accepted. |
| Registry.BroadcastQuiet | app/websocket_manager.py:57-73 | A broadcast that did not raise disconnected nobody: connections, member sets and typing maps are unchanged, and the outbox only grew. |
| Registry.BroadcastStopsAtRefusal | app/websocket_manager.py:48-73 | A broadcast that raised disconnected exactly one recipient, one whose socket refused. |
| Registry.SendingStart | app/websocket_manager.py:65-68 | Before the send loop nobody is handled, every recipient is pending and both counters are zero. |
| Registry.BroadcastEnd | app/websocket_manager.py:68-73 | A send loop that handled everyone or raised is a complete broadcast, with no more successes than targets and every delivery addressed to a recipient. |
| Registry.WithTyping | app/websocket_manager.py:97-101 | Recording a flag changes that user's entry in that conversation only, and leaves no typing map empty. |
| Registry.ConnectionManager.constructor | app/websocket_manager.py:9-15 | The registry starts with all three maps empty. |
| Registry.ConnectionManager.Members | app/websocket_manager.py:57-58 | The member set of a conversation. It is empty exactly for a conversation the registry does not know. |
| Registry.ConnectionManager.Connect | app/websocket_manager.py:17-20 | Registers the socket for the user, replacing an older one, and changes nothing else. |
| Registry.ConnectionManager.Disconnect | app/websocket_manager.py:22-39 | The user leaves the connections and every member set and typing map. Every other entry is unchanged and no set or map is left empty. |
| Registry.ConnectionManager.LeaveAllConversations | app/websocket_manager.py:27-32 | The loop over conversations ends with the member sets purged of the user. |
| Registry.ConnectionManager.ClearTyping | app/websocket_manager.py:34-39 | The loop over conversations ends with the typing maps purged of the user. |
| Registry.ConnectionManager.SendPersonalMessage | app/websocket_manager.py:41-55 | Returns true exactly when the user has a socket and it accepts, and only then is a delivery recorded. A refused send disconnects the user. Nothing changes for an unregistered user. |
| Registry.ConnectionManager.SendToConversation | app/websocket_manager.py:57-81 | Sends to the members other than the excluded user, one at a time, and stops right after the first refused send, whose member is disconnected (`Broadcast`). It covers every such member exactly when none refuses. It counts the members addressed and the accepted sends, never more successes than targets. Every delivery carries the event and never goes to the excluded user. An unknown conversation changes nothing. |
| Registry.ConnectionManager.BroadcastTo | app/websocket_manager.py:68-73 | The send loop ends with a complete broadcast: every recipient handled unless a refusal stopped it, the accepting ones reached once each, at most one refusing one dropped, and every delivery addressed to a recipient. |
| Registry.ConnectionManager.SendOne | app/websocket_manager.py:69-73 | One send moves the broadcast from the recipients handled so far to those plus one. It succeeds exactly when the recipient has a socket that accepts, and it stops the iteration exactly when a socket refuses. |
| Registry.ConnectionManager.AddToConversation | app/websocket_manager.py:83-88 | Afterwards the user is a member and no other set changes. Adding a member twice changes nothing. |
| Registry.ConnectionManager.RemoveFromConversation | app/websocket_manager.py:90-95 | Removes only that user and drops an emptied set. An unknown conversation is left alone. |
| Registry.ConnectionManager.GetTypingStatus | app/websocket_manager.py:103-105 | The typing map of a conversation. It is empty exactly for an unknown conversation. |
| Registry.ConnectionManager.SetTypingStatus | app/websocket_manager.py:97-101 | Afterwards the user's flag in that conversation is the given value, and nothing else changes. |
| Registry.ConnectionManager.BroadcastTypingStatus | app/websocket_manager.py:107-120 | The user's flag is recorded and survives. Then the other members are sent the typing event, up to the first refused send, as `SendToConversation` does. Every delivery carries that event to someone other than the user. |
| Realtime.WebSocketHandler.AutoAddToConversation | app/websocket_manager.py:150-174 | The user joins a conversation exactly when they take part in an active one, and joins only that conversation. |
| Realtime.AnnounceEnd | app/websocket_manager.py:327-330 | Every member, the sender included, is told up to the first refused send. Then, exactly when nothing was refused, the sender alone leaves the member set. |
| Realtime.WebSocketHandler.HandleChatMessage | app/websocket_manager.py:189-256 | A missing or zero conversation id, or empty content, changes nothing. Otherwise the message is stored under the next id with "text" as the default type. Under the default SQLite configuration (app/config.py:8) this happens even when no conversation has that id. That conversation's activity time is refreshed, and no keep flag changes. Both participants are added when the registry lacks the conversation. Every other member is then sent the message up to the first refused send, whose error is caught. |
| Realtime.WebSocketHandler.Relay | app/websocket_manager.py:242-250 | The registry after a chat message: the room is opened if needed, then every member but the sender is told up to the first refused send. |
| Realtime.WebSocketHandler.StoreMessage | app/websocket_manager.py:208-221 | One new message row under the next id, and the activity time of its conversation set to now. |
| Realtime.WebSocketHandler.OpenRoom | app/websocket_manager.py:242-247 | The member map becomes `ChatRoom` of the old one. |
| Realtime.WebSocketHandler.HandleTyping | app/websocket_manager.py:258-264 | Without a conversation id nothing changes and nothing is raised. Otherwise the flag, false by default, is recorded and sent to the other members. The handler raises exactly when a member's socket refused. |
| Realtime.WebSocketHandler.HandleKeep | app/websocket_manager.py:266-301 | Needs an existing conversation but no participant check; otherwise nothing changes. The caller's flag (false by default) is recorded as `set_keep_status` does and the activity time refreshed, with every other conversation untouched. Then the flag and `both_kept` are sent to the other members, up to the first refused send, whose error is caught. |
| Realtime.WebSocketHandler.RecordKeep | app/websocket_manager.py:280-283 | The database part of a keep frame: at most one participant's flag changes (none when the caller is not a participant), and the activity time of that conversation is refreshed. |
| Realtime.WebSocketHandler.TellKeep | app/websocket_manager.py:286-297 | The keep event goes to every member but the caller, up to the first refused send; the registry is otherwise as before. |
| Realtime.WebSocketHandler.HandleEndConversation | app/websocket_manager.py:303-334 | A missing id or an unknown conversation changes nothing. Otherwise every member, the sender included, is told without a redirect URL, up to the first refused send. Only when nothing was refused does the sender leave the member set. The conversation stays active and no keep flag or activity time changes. |
| Realtime.WebSocketHandler.ProcessMessage | app/websocket_manager.py:176-187 | Unknown types change nothing. A handled type without data fails before any change. Each handled type with data does exactly what its handler states. Only a typing broadcast that raised fails the dispatch, so a failure always comes from a malformed or a typing frame. Exactly the frame's `NewMessages` are appended to the message rows. The users and conversations tables never change. The registry after the frame is one that `FrameStep` allows from the registry before it, and the dispatch fails exactly when `FrameFails` holds of the registry before it: a malformed frame, or a typing frame whose broadcast meets a refusing member socket. |
| Realtime.WebSocketHandler.Dispatch | app/websocket_manager.py:138-141 | One received frame, with its own clock reading and send outcomes, is handled as `ProcessMessage` states. |
| Realtime.NewMessages | app/websocket_manager.py:189-221 | A frame stores one row exactly when it is a chat message with data, a non-zero conversation id and non-empty content, and no row otherwise. The row has the next id, the sender, the clock reading, the conversation, the content and the type, "text" by default. |
| Realtime.SessionMessages | app/websocket_manager.py:137-143 | The rows of the first `n` frames of a session, in frame order, at most one per frame. |
| Realtime.SessionMessagesNumbered | app/websocket_manager.py:137-143 | The rows a session stores carry consecutive ids from the first free one, and all of them name the session's user as sender. |
| Realtime.SessionStep | app/websocket_manager.py:137-143 | A session that has handled `n` frames without failure, followed by a `FrameStep` of frame `n`, is a session of `n + 1` frames whose failure flag is exactly `FrameFails` of frame `n` on the registry it met. |
| Realtime.WebSocketHandler.HandleFrame | app/websocket_manager.py:139-143 | Handling frame `i` extends the session's stored rows from those of the first `i` frames to those of the first `i + 1`, and its registry snapshots by the registry after the frame, reached by a `FrameStep`. It fails exactly when `FrameFails` holds of frame `i` on the registry it met. The users and conversations tables stay. |
| Realtime.WebSocketHandler.HandleFrames | app/websocket_manager.py:137-148 | The loop handles frames in order and stops at the first failure or when they run out. `states` are the registry snapshots between frames, from the registry at entry to the current one, each reached from the one before by a `FrameStep` of that frame. No handled frame but the last meets `FrameFails`; if frames are left over, the last one handled does, so the loop stopped on a real failure: a malformed frame, or a typing broadcast that a refusing socket cut short. The message rows grew by exactly the rows of the handled frames, numbered from the first free id. |
| Realtime.WebSocketHandler.Open | app/websocket_manager.py:128-133 | The socket is registered under the user and, exactly when the user takes part in an active conversation, they join that conversation's member set (`Opened`); nothing else in the registry changes. |
| Realtime.WebSocketHandler.HandleWebsocket | app/websocket_manager.py:129-148 | The first registry snapshot of the session is the one `Opened` describes: the socket registered and the user in their active conversation's member set. Then the frames are handled as `HandleFrames` states, each snapshot reached from the last by a `FrameStep`, stopping only at the end of the frames or on a frame that meets `FrameFails`, with exactly the handled chat frames' rows stored. Either way the final registry is the last snapshot with the user purged (`Closed`). |
| Realtime.ClosedForgets | app/websocket_manager.py:143-147 | After the session's disconnect the user is gone from the connections, from every member set and from every typing map. |
| Api.StatusCode | app/main.py:336-340 | 404 exactly for an unknown conversation, 500 exactly for the server error, and 400 for every other refusal. |
| Api.WithProfile | app/main.py:188-194 | The profile update replaces nickname, birth date, gender, preference, goal and interests, and keeps the username and state. |
| Api.Partner | app/main.py:233 | The other participant of a conversation, seen from one of its participants. |
| Api.Register | app/main.py:97-131 | Succeeds exactly when the confirmation matches and the username is free. A mismatch is refused first, then a username already in use, and neither changes anything. Otherwise a "waiting" user is added under the next id. |
| Api.UpdateProfile | app/main.py:174-201 | More than five interests is refused with nothing changed. Otherwise exactly the caller's profile fields are replaced. |
| Api.CancelSearch | app/main.py:356-376 | Succeeds exactly for a searching caller, who goes back to "waiting". Anyone else is refused with nothing changed. |
| Api.ToggleKeep | app/main.py:324-354 | Succeeds exactly when the caller takes part in the conversation, active or not, and is otherwise refused with 404. On success it sets the caller's flag, keeps the other participant's flag, sets the activity time and reports `both_kept` after the update. Other conversations are untouched. |
| Api.EndConversation | app/main.py:378-420 | Refused with 404 unless the caller takes part, and then nothing changes. Otherwise the conversation becomes inactive and both users go to "waiting", and no other conversation changes. Every member is told up to the first refused send. Exactly when nothing was refused, the route succeeds and the caller alone leaves the member set. Otherwise it answers with a server error, with the ending still committed. |
| Api.CloseConversation | app/main.py:386-398 | Finds the conversation exactly when it exists with the caller as a participant, and then ends it. Otherwise nothing changes. |
| Api.StartSearch | app/main.py:211-322 | A caller without a nickname is refused with nothing changed. A caller already in an active conversation gets it back and joins its member set, with no change of state. Anyone else becomes "searching", and stays so exactly when no candidate is eligible. Otherwise a conversation with the found partner is created and no other conversation changes. Both become "connected" and join its member set, and each is sent the match notice. |
| Api.ResumeConversation | app/main.py:222-251 | The caller joins the active conversation they take part in, and only that member set changes; connections, typing maps and outbox stay. The conversation is reported with its partner, and a partner missing from the store is a server error. |
| Api.BeginSearch | app/main.py:254-260 | The caller becomes "searching". A partner is found exactly when some other user was eligible, and the partner found was eligible. |
| Api.SearchForPartner | app/main.py:254-322 | Always succeeds. The caller stays "searching" with nothing else changed exactly when no one was eligible. Otherwise an eligible partner is paired with the caller in a new conversation under the next id, and only that conversation is added. Both become "connected" and join its member set. Each is sent the match notice if their socket accepts; a refused notice disconnects that user everywhere. |
| Api.PairUp | app/main.py:262-290 | An eligible partner always yields a new active conversation under the next id pairing the two, with no other conversation changed. Both become "connected" and both join the member set. Each is sent the match notice once if their socket accepts, and a refused notice disconnects that user everywhere. |
| Api.JoinBoth | app/main.py:269-270 | Both users join the new conversation's member set. No other member set, connection, typing flag or delivery changes. |
| Api.Notify | app/main.py:286-290 | A personal send to one user: the delivery is recorded exactly when the socket exists and accepts. A refused send removes the user from the connections, every member set and every typing map, and changes nothing else. |
| Api.AnnounceMatch | app/main.py:268-290 | Both join, then each is sent the match notice, the searcher first, as two deliveries at most in that order. A user whose socket refuses leaves the connections, every member set and every typing map. |

## Left out

- Socket and JSON I/O: accepting sockets, sending and receiving text,
  and JSON encoding. A send is an outcome handed in; the wire format of
  events is the `Event` datatype.
- Password hashing, tokens and authentication are not part of this
  model. Routes other than registration take an existing caller.
- Login, logout, the page routes, message listing, conversation info and
  the searching-user count are not part of this model.
- Concurrency: database sessions, commits, rollbacks and interleaving are
  left out. The source's re-reads before committing become plain checks
  on a single state.
- Api.PairUp: the `ValueError` branch of `/search` after a match is
  unreachable in a sequential model. The partner returned by `FindMatch`
  always passes the checks of `CreateConversation`.
- Floating point: scores are exact reals. Python floats could round
  differently exactly at the 0.8 and 0.5 thresholds.
- Time zones and the `created_at`, `updated_at` and `voice_unlocked`
  columns are left out. Time is one real-valued clock.
- The interests column's JSON encoding is left out; interests are a
  sequence of strings.
- Registry.ConnectionManager.SendToConversation: which member the
  iteration reaches first is left open, as Python's set order is. The
  model fixes only that the loop stops right after the first refusal.
- Realtime.WebSocketHandler.constructor: takes the registry as an
  argument. The source's handler takes none, although app/main.py:484
  passes the database session to it. `WebSocketHandler(db)` against
  `__init__(self)` (app/websocket_manager.py:125) raises `TypeError` on
  every /ws/{user_id} connection, so in the source as shipped no frame
  ever reaches `handle_websocket`; the model describes the handler as
  it would behave once constructed.
- Realtime.Payload: conversation ids in frames are natural numbers.
  Negative or non-integer JSON values, and a "message_type" present as
  null, are not modelled. Neither are "is_typing" and "keep_status"
  present as null or as non-boolean values: the model reads them as
  booleans, false when absent. In the source a null "keep_status" is
  read as None (app/websocket_manager.py:269) and stored as a NULL
  flag (app/websocket_manager.py:280-283), which the
  cleanup filter `== False` never selects (app/matching.py:224-225); a
  null "is_typing" is passed on as None (app/websocket_manager.py:261).
  A non-string "content" is not modelled either: `content[:50]`
  (app/websocket_manager.py:201) raises `TypeError` outside the try and
  ends the session. Nor is a frame that is JSON but not an object:
  `message_data.get` (app/websocket_manager.py:178) raises
  `AttributeError` and ends the session.
- Realtime.WebSocketHandler.HandleWebsocket: each frame carries its own
  clock reading and send outcomes. Frames that are not JSON, frames that
  are JSON but not objects, a non-string chat content, and database
  errors with their rollbacks inside the handlers, are not modelled; the
  first three end the session in the source. The only error modelled is
  the `RuntimeError` of a broadcast that a refused send cut short.
  Across a whole session the registry is stated snapshot by snapshot,
  but `FrameStep` leaves the id of a relayed chat message and the
  `both_kept` value of a keep event existentially quantified; both are
  pinned per frame by `ProcessMessage`. The keep flags and activity
  times that each frame changes are likewise stated per frame, not
  summed over the session.
- Api.EndConversation: does not promise success to every participant.
  A broadcast that raises leaves the route with a server error after the
  ending was committed (app/main.py:412).
- Matching.MatchingService.FindMatch: the requested session type plays
  no part in matching, as in the source. Exceptions inside the candidate
  loop are not modelled.
- Message batching, typing debounce, a countdown-expiry sweeper and a
  metadata cache are not implemented in the source and are not modelled.
