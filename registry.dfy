/** The in-memory registry of live websocket connections
    (app/websocket_manager.py): which socket each user is connected on,
    which users listen to each conversation, and who is typing where. A
    socket send is an outcome handed in by the caller; a send that is
    accepted is recorded in `outbox`. */
module Registry {
  import opened Wrappers
  import opened Models

  /** An accepted websocket; only its identity matters here. */
  type SocketId = nat

  /** The JSON events the server pushes to clients, one constructor per
      "type" field value. */
  datatype Event =
    | MatchFound(conversationId: ConvId, conversationType: string, matchedUserId: UserId, matchedNickname: Option<string>)
    | ChatMessage(id: MessageId, conversationId: ConvId, senderId: UserId, content: string, messageType: string, createdAt: Time)
    | TypingStatus(conversationId: ConvId, userId: UserId, isTyping: bool)
    | KeepStatus(conversationId: ConvId, userId: UserId, keepStatus: bool, bothKept: bool)
    | ConversationEnded(conversationId: ConvId, endedBy: UserId, redirectUrl: Option<string>)

  /** One event written to the socket registered for `to`. */
  datatype Delivery = Delivery(to: UserId, socket: SocketId, event: Event)

  /** No conversation keeps an empty member set. */
  predicate NoEmptyMembers(members: map<ConvId, set<UserId>>) {
    forall c :: c in members ==> members[c] != {}
  }

  /** No conversation keeps an empty typing map. */
  predicate NoEmptyTyping(typing: map<ConvId, map<UserId, bool>>) {
    forall c :: c in typing ==> typing[c] != map[]
  }

  /** The users listening to conversation `c` according to `members`. */
  function MembersAt(members: map<ConvId, set<UserId>>, c: ConvId): set<UserId> {
    if c in members then members[c] else {}
  }

  /** The typing flags of conversation `c` according to `typing`. */
  function TypingAt(typing: map<ConvId, map<UserId, bool>>, c: ConvId): map<UserId, bool> {
    if c in typing then typing[c] else map[]
  }

  /** The member sets once the users `gone` have left every conversation;
      a set left empty is dropped. */
  function PurgeMembers(members: map<ConvId, set<UserId>>, gone: set<UserId>): (r: map<ConvId, set<UserId>>)
    ensures NoEmptyMembers(r)
    ensures r.Keys <= members.Keys
    ensures forall c :: c in members ==> MembersAt(r, c) == members[c] - gone
  {
    map c | c in members && members[c] - gone != {} :: members[c] - gone
  }

  /** The typing maps once the users `gone` have been dropped from every
      conversation; a map left empty is dropped. */
  function PurgeTyping(typing: map<ConvId, map<UserId, bool>>, gone: set<UserId>): (r: map<ConvId, map<UserId, bool>>)
    ensures NoEmptyTyping(r)
    ensures r.Keys <= typing.Keys
    ensures forall c :: c in typing ==> TypingAt(r, c) == typing[c] - gone
  {
    map c | c in typing && typing[c] - gone != map[] :: typing[c] - gone
  }

  /** Purging nobody changes nothing, given the no-empty invariant. */
  lemma PurgeNobody(members: map<ConvId, set<UserId>>, typing: map<ConvId, map<UserId, bool>>)
    requires NoEmptyMembers(members) && NoEmptyTyping(typing)
    ensures PurgeMembers(members, {}) == members
    ensures PurgeTyping(typing, {}) == typing
  {
    var m := PurgeMembers(members, {});
    forall c | c in members
      ensures c in m && m[c] == members[c]
    {
      assert members[c] - {} == members[c];
    }
    assert m.Keys == members.Keys;
    var r := PurgeTyping(typing, {});
    forall c | c in typing
      ensures c in r && r[c] == typing[c]
    {
      MapMinusNothing(typing[c]);
      assert typing[c] != map[];
    }
    assert r.Keys == typing.Keys;
  }

  /** Purging two groups one after the other purges their union. */
  lemma PurgeMembersTwice(members: map<ConvId, set<UserId>>, s: set<UserId>, t: set<UserId>)
    ensures PurgeMembers(PurgeMembers(members, s), t) == PurgeMembers(members, s + t)
  {
    var lhs := PurgeMembers(PurgeMembers(members, s), t);
    var rhs := PurgeMembers(members, s + t);
    forall c | c in members
      ensures (c in lhs <==> c in rhs) && (c in lhs ==> lhs[c] == rhs[c])
    {
      assert members[c] - s - t == members[c] - (s + t);
    }
  }

  lemma PurgeTypingTwice(typing: map<ConvId, map<UserId, bool>>, s: set<UserId>, t: set<UserId>)
    ensures PurgeTyping(PurgeTyping(typing, s), t) == PurgeTyping(typing, s + t)
  {
    var lhs := PurgeTyping(PurgeTyping(typing, s), t);
    var rhs := PurgeTyping(typing, s + t);
    forall c | c in typing
      ensures (c in lhs <==> c in rhs) && (c in lhs ==> lhs[c] == rhs[c])
    {
      MapMinusTwice(typing[c], s, t);
    }
  }

  /** Purging a user a second time changes nothing: disconnecting twice is
      disconnecting once. */
  lemma PurgeIdempotent(members: map<ConvId, set<UserId>>, typing: map<ConvId, map<UserId, bool>>, gone: set<UserId>)
    ensures PurgeMembers(PurgeMembers(members, gone), gone) == PurgeMembers(members, gone)
    ensures PurgeTyping(PurgeTyping(typing, gone), gone) == PurgeTyping(typing, gone)
  {
    PurgeMembersTwice(members, gone, gone);
    PurgeTypingTwice(typing, gone, gone);
    assert gone + gone == gone;
  }

  /** Under the no-empty invariant, a member map is determined by the
      member sets it reports. */
  lemma MembersExtensional(a: map<ConvId, set<UserId>>, b: map<ConvId, set<UserId>>)
    requires NoEmptyMembers(a) && NoEmptyMembers(b)
    requires forall c :: MembersAt(a, c) == MembersAt(b, c)
    ensures a == b
  {
    forall c | c in a
      ensures c in b && a[c] == b[c]
    {
      assert MembersAt(a, c) == a[c];
    }
    forall c | c in b
      ensures c in a
    {
      assert MembersAt(b, c) == b[c];
    }
  }

  lemma MapMinusNothing(m: map<UserId, bool>)
    ensures m - {} == m
  {
  }

  lemma MapMinusTwice(m: map<UserId, bool>, s: set<UserId>, t: set<UserId>)
    ensures (m - s) - t == m - (s + t)
  {
  }

  /** A subset is no larger than the set containing it. */
  lemma CardSubset(a: set<UserId>, b: set<UserId>)
    requires a <= b
    ensures |a| <= |b|
  {
    if a != {} {
      var x :| x in a;
      CardSubset(a - {x}, b - {x});
    }
  }

  /** The users a conversation broadcast is addressed to: every member but
      the excluded one. */
  function Recipients(members: set<UserId>, exclude: Option<UserId>): (r: set<UserId>)
    ensures r <= members
    ensures forall v :: v in members ==> (v in r <==> exclude != Some(v))
  {
    if exclude.Some? then members - {exclude.value} else members
  }

  /** The recipients whose socket is registered and accepts the send. */
  function Reached(recipients: set<UserId>, active: map<UserId, SocketId>, sendOk: UserId -> bool): (r: set<UserId>)
    ensures r <= recipients
    ensures forall v :: v in r <==> v in recipients && v in active && sendOk(v)
  {
    set v | v in recipients && v in active && sendOk(v)
  }

  /** The recipients whose socket is registered but refuses the send; each
      of them is disconnected. */
  function Dropped(recipients: set<UserId>, active: map<UserId, SocketId>, sendOk: UserId -> bool): (r: set<UserId>)
    ensures r <= recipients
    ensures r !! Reached(recipients, active, sendOk)
    ensures forall v :: v in r <==> v in recipients && v in active && !sendOk(v)
  {
    set v | v in recipients && v in active && !sendOk(v)
  }

  /** The addressees of the deliveries from position `from` on. */
  function SentTo(outbox: seq<Delivery>, from: nat): set<UserId> {
    set k | from <= k < |outbox| :: outbox[k].to
  }

  /** Every delivery from position `from` on carries `event` and went to
      the socket that `active` registered for its addressee. */
  predicate AllCarry(outbox: seq<Delivery>, from: nat, event: Event, active: map<UserId, SocketId>) {
    forall k :: from <= k < |outbox| ==>
      outbox[k].event == event && outbox[k].to in active && outbox[k].socket == active[outbox[k].to]
  }

  lemma SentToAppend(outbox: seq<Delivery>, from: nat, d: Delivery)
    requires from <= |outbox|
    ensures SentTo(outbox + [d], from) == SentTo(outbox, from) + {d.to}
  {
    var ext := outbox + [d];
    forall v | v in SentTo(ext, from)
      ensures v in SentTo(outbox, from) + {d.to}
    {
      var k :| from <= k < |ext| && ext[k].to == v;
      if k < |outbox| {
        assert outbox[k].to == v;
      }
    }
    forall v | v in SentTo(outbox, from) + {d.to}
      ensures v in SentTo(ext, from)
    {
      if v == d.to {
        assert ext[|outbox|].to == v;
      } else {
        var k :| from <= k < |outbox| && outbox[k].to == v;
        assert ext[k].to == v;
      }
    }
  }

  /** A delivery of `event` on the registered socket keeps `AllCarry`. */
  lemma AllCarryAppend(outbox: seq<Delivery>, from: nat, event: Event, active: map<UserId, SocketId>, d: Delivery)
    requires from <= |outbox| && AllCarry(outbox, from, event, active)
    requires d.event == event && d.to in active && d.socket == active[d.to]
    ensures AllCarry(outbox + [d], from, event, active)
  {
    var ext := outbox + [d];
    forall k | from <= k < |ext|
      ensures ext[k].event == event && ext[k].to in active && ext[k].socket == active[ext[k].to]
    {
      if k < |outbox| {
        assert ext[k] == outbox[k];
      }
    }
  }

  lemma MoveToDone(all: set<UserId>, done: set<UserId>, v: UserId)
    requires v in all - done
    ensures all - (done + {v}) == (all - done) - {v}
  {
  }

  lemma ReachedAdd(done: set<UserId>, v: UserId, active: map<UserId, SocketId>, sendOk: UserId -> bool)
    requires v !in done
    ensures Reached(done + {v}, active, sendOk) ==
              Reached(done, active, sendOk) + (if v in active && sendOk(v) then {v} else {})
  {
  }

  lemma DroppedAdd(done: set<UserId>, v: UserId, active: map<UserId, SocketId>, sendOk: UserId -> bool)
    requires v !in done
    ensures Dropped(done + {v}, active, sendOk) ==
              Dropped(done, active, sendOk) + (if v in active && !sendOk(v) then {v} else {})
  {
  }

  /** The registry's connections, member sets, typing maps and outbox. */
  datatype Snapshot = Snapshot(active: map<UserId, SocketId>, members: map<ConvId, set<UserId>>,
                               typing: map<ConvId, map<UserId, bool>>, outbox: seq<Delivery>)

  /** `now` is the registry part way through a broadcast of `event` that
      began in `start` and has addressed the recipients `done`: those whose
      socket refuses the send are disconnected, those whose socket accepts
      it got one delivery each, appended to the outbox. */
  ghost predicate Broadcasting(now: Snapshot, start: Snapshot, done: set<UserId>, event: Event, sendOk: UserId -> bool) {
    var dropped := Dropped(done, start.active, sendOk);
    var reached := Reached(done, start.active, sendOk);
    && now.active == start.active - dropped
    && now.members == PurgeMembers(start.members, dropped)
    && now.typing == PurgeTyping(start.typing, dropped)
    && |now.outbox| == |start.outbox| + |reached| && now.outbox[..|start.outbox|] == start.outbox
    && SentTo(now.outbox, |start.outbox|) == reached
    && AllCarry(now.outbox, |start.outbox|, event, start.active)
  }

  /** Nothing has happened at the start of a broadcast. */
  lemma BroadcastStart(start: Snapshot, event: Event, sendOk: UserId -> bool)
    requires NoEmptyMembers(start.members) && NoEmptyTyping(start.typing)
    ensures Broadcasting(start, start, {}, event, sendOk)
  {
    PurgeNobody(start.members, start.typing);
    assert start.active - {} == start.active;
    assert start.outbox[..|start.outbox|] == start.outbox;
    assert Dropped({}, start.active, sendOk) == {} && Reached({}, start.active, sendOk) == {};
  }

  /** A recipient whose socket accepts the send gets one delivery. */
  lemma BroadcastAccepted(now: Snapshot, start: Snapshot, done: set<UserId>, event: Event, sendOk: UserId -> bool, v: UserId)
    requires Broadcasting(now, start, done, event, sendOk)
    requires v !in done && v in start.active && sendOk(v)
    ensures v in now.active && now.active[v] == start.active[v]
    ensures Broadcasting(now.(outbox := now.outbox + [Delivery(v, now.active[v], event)]), start, done + {v}, event, sendOk)
  {
    var d := Delivery(v, start.active[v], event);
    var reached := Reached(done, start.active, sendOk);
    ReachedAdd(done, v, start.active, sendOk);
    DroppedAdd(done, v, start.active, sendOk);
    assert Dropped(done + {v}, start.active, sendOk) == Dropped(done, start.active, sendOk);
    assert v !in reached;
    assert |reached + {v}| == |reached| + 1;
    var next := now.outbox + [d];
    SentToAppend(now.outbox, |start.outbox|, d);
    assert SentTo(next, |start.outbox|) == Reached(done + {v}, start.active, sendOk);
    assert |next| == |start.outbox| + |Reached(done + {v}, start.active, sendOk)|;
    AllCarryAppend(now.outbox, |start.outbox|, event, start.active, d);
    assert next[..|start.outbox|] == now.outbox[..|start.outbox|];
  }

  /** A recipient whose socket refuses the send is disconnected. */
  lemma BroadcastRefused(now: Snapshot, start: Snapshot, done: set<UserId>, event: Event, sendOk: UserId -> bool, v: UserId)
    requires Broadcasting(now, start, done, event, sendOk)
    requires v !in done && v in start.active && !sendOk(v)
    ensures v in now.active
    ensures Broadcasting(Snapshot(now.active - {v}, PurgeMembers(now.members, {v}), PurgeTyping(now.typing, {v}), now.outbox),
                         start, done + {v}, event, sendOk)
  {
    var dropped := Dropped(done, start.active, sendOk);
    ReachedAdd(done, v, start.active, sendOk);
    DroppedAdd(done, v, start.active, sendOk);
    PurgeMembersTwice(start.members, dropped, {v});
    PurgeTypingTwice(start.typing, dropped, {v});
    assert start.active - dropped - {v} == start.active - (dropped + {v});
  }

  /** A recipient without a registered socket is skipped. */
  lemma BroadcastAbsent(now: Snapshot, start: Snapshot, done: set<UserId>, event: Event, sendOk: UserId -> bool, v: UserId)
    requires Broadcasting(now, start, done, event, sendOk)
    requires v !in done && v !in start.active
    ensures v !in now.active
    ensures Broadcasting(now, start, done + {v}, event, sendOk)
  {
    ReachedAdd(done, v, start.active, sendOk);
    DroppedAdd(done, v, start.active, sendOk);
  }

  /** Some recipient has a registered socket that refuses the send. */
  predicate Refusing(recipients: set<UserId>, active: map<UserId, SocketId>, sendOk: UserId -> bool) {
    Dropped(recipients, active, sendOk) != {}
  }

  /** `now` is the registry after a broadcast of `event` to `recipients`
      that began in `start`. The sends go out one recipient at a time, in
      the set's own order, while the member set itself is iterated. A
      refused send disconnects its recipient, which removes it from that
      very set, and Python raises `RuntimeError` at the next step of the
      iteration. So the broadcast handles the recipients `handled` and
      stops (`raised`) right after the first refusal, and it covers every
      recipient exactly when none of them refuses. */
  ghost predicate Broadcast(now: Snapshot, start: Snapshot, recipients: set<UserId>, event: Event,
                            sendOk: UserId -> bool, handled: set<UserId>, raised: bool) {
    && handled <= recipients
    && Broadcasting(now, start, handled, event, sendOk)
    && (raised <==> Refusing(recipients, start.active, sendOk))
    && (!raised ==> handled == recipients)
    && (raised ==> |Dropped(handled, start.active, sendOk)| == 1)
  }

  /** `now` is the registry after a broadcast of `event` to `recipients`
      that began in `start` and whose error, if any, was caught. */
  ghost predicate Told(now: Snapshot, start: Snapshot, recipients: set<UserId>, event: Event, sendOk: UserId -> bool) {
    exists handled :: Broadcast(now, start, recipients, event, sendOk, handled, Refusing(recipients, start.active, sendOk))
  }

  /** A broadcast that raised nothing told every recipient with a
      registered socket, on that socket. */
  lemma BroadcastTellsAll(now: Snapshot, start: Snapshot, recipients: set<UserId>, event: Event,
                          sendOk: UserId -> bool, handled: set<UserId>, v: UserId)
    requires Broadcast(now, start, recipients, event, sendOk, handled, false)
    requires v in recipients && v in start.active
    ensures sendOk(v)
    ensures exists k :: |start.outbox| <= k < |now.outbox| && now.outbox[k] == Delivery(v, start.active[v], event)
  {
    assert v !in Dropped(recipients, start.active, sendOk);
    assert v in Reached(handled, start.active, sendOk);
    assert v in SentTo(now.outbox, |start.outbox|);
    var k :| |start.outbox| <= k < |now.outbox| && now.outbox[k].to == v;
    assert now.outbox[k] == Delivery(v, start.active[v], event);
  }

  /** A broadcast that raised nothing disconnected nobody: only the outbox
      has grown. */
  lemma BroadcastQuiet(now: Snapshot, start: Snapshot, recipients: set<UserId>, event: Event,
                       sendOk: UserId -> bool, handled: set<UserId>)
    requires NoEmptyMembers(start.members) && NoEmptyTyping(start.typing)
    requires Broadcast(now, start, recipients, event, sendOk, handled, false)
    ensures now.active == start.active && now.members == start.members && now.typing == start.typing
    ensures now.outbox[..|start.outbox|] == start.outbox
  {
    assert Dropped(handled, start.active, sendOk) == {};
    PurgeNobody(start.members, start.typing);
    assert start.active - {} == start.active;
  }

  /** A broadcast that raised disconnected exactly one recipient, one
      whose socket refused, and handled nobody else that refuses. */
  lemma BroadcastStopsAtRefusal(now: Snapshot, start: Snapshot, recipients: set<UserId>, event: Event,
                                sendOk: UserId -> bool, handled: set<UserId>)
    requires Broadcast(now, start, recipients, event, sendOk, handled, true)
    ensures exists v :: v in recipients && v in start.active && !sendOk(v) &&
                        Dropped(handled, start.active, sendOk) == {v} &&
                        now.active == start.active - {v}
  {
    var dropped := Dropped(handled, start.active, sendOk);
    var v :| v in dropped;
    OneElement(dropped, v);
  }

  /** A set of one element holds nothing else. */
  lemma OneElement(s: set<UserId>, v: UserId)
    requires |s| == 1 && v in s
    ensures s == {v}
  {
    var rest := s - {v};
    assert |rest| == 0;
  }

  /** The send loop of a broadcast part way: the recipients `handled` are
      addressed and `pending` are still to go; `raised` once a refused send
      stopped it; `targets` and `successes` count the addressed recipients
      and the accepted sends. */
  ghost predicate Sending(now: Snapshot, start: Snapshot, recipients: set<UserId>, event: Event, sendOk: UserId -> bool,
                          handled: set<UserId>, pending: set<UserId>, raised: bool, successes: nat, targets: nat) {
    && handled <= recipients && pending == recipients - handled
    && targets == |handled| && successes == |Reached(handled, start.active, sendOk)|
    && Broadcasting(now, start, handled, event, sendOk)
    && (raised <==> Dropped(handled, start.active, sendOk) != {})
    && (raised ==> |Dropped(handled, start.active, sendOk)| == 1)
  }

  lemma SendingStart(start: Snapshot, recipients: set<UserId>, event: Event, sendOk: UserId -> bool)
    requires NoEmptyMembers(start.members) && NoEmptyTyping(start.typing)
    ensures Sending(start, start, recipients, event, sendOk, {}, recipients, false, 0, 0)
  {
    BroadcastStart(start, event, sendOk);
    assert recipients - {} == recipients;
  }

  /** The send loop has stopped, having handled every recipient or raised:
      the broadcast is complete, and every delivery went to a recipient. */
  lemma BroadcastEnd(now: Snapshot, start: Snapshot, recipients: set<UserId>, event: Event, sendOk: UserId -> bool,
                     handled: set<UserId>, pending: set<UserId>, raised: bool, successes: nat, targets: nat)
    requires Sending(now, start, recipients, event, sendOk, handled, pending, raised, successes, targets)
    requires raised || pending == {}
    ensures Broadcast(now, start, recipients, event, sendOk, handled, raised)
    ensures |Reached(handled, start.active, sendOk)| <= |handled|
    ensures forall k :: |start.outbox| <= k < |now.outbox| ==>
              now.outbox[k].event == event && now.outbox[k].to in recipients
  {
    if raised {
      assert Dropped(handled, start.active, sendOk) <= Dropped(recipients, start.active, sendOk);
    } else {
      assert handled == recipients;
    }
    CardSubset(Reached(handled, start.active, sendOk), handled);
    forall k | |start.outbox| <= k < |now.outbox|
      ensures now.outbox[k].to in recipients
    {
      assert now.outbox[k].to in SentTo(now.outbox, |start.outbox|);
    }
  }

  /** The typing maps once `u` is recorded as typing or not in `c`. */
  function WithTyping(typing: map<ConvId, map<UserId, bool>>, c: ConvId, u: UserId, isTyping: bool)
    : (r: map<ConvId, map<UserId, bool>>)
    ensures NoEmptyTyping(typing) ==> NoEmptyTyping(r)
    ensures forall d :: TypingAt(r, d) == if d == c then TypingAt(typing, d)[u := isTyping] else TypingAt(typing, d)
  {
    var entry := TypingAt(typing, c)[u := isTyping];
    assert u in entry;
    typing[c := entry]
  }

  class ConnectionManager {
    var activeConnections: map<UserId, SocketId>
    var conversationConnections: map<ConvId, set<UserId>>
    var typingStatus: map<ConvId, map<UserId, bool>>
    /** Every event a socket accepted, in the order it was sent. */
    var outbox: seq<Delivery>

    /** The registry never keeps an empty member set or typing map. */
    predicate Valid()
      reads this
    {
      NoEmptyMembers(conversationConnections) && NoEmptyTyping(typingStatus)
    }

    /** The four maps of the registry, as values. */
    function State(): Snapshot
      reads this
    {
      Snapshot(activeConnections, conversationConnections, typingStatus, outbox)
    }

    constructor ()
      ensures Valid()
      ensures activeConnections == map[] && conversationConnections == map[] && typingStatus == map[]
      ensures outbox == []
    {
      activeConnections, conversationConnections, typingStatus := map[], map[], map[];
      outbox := [];
    }

    /** The users listening to conversation `c`; none for an unknown one. */
    function Members(c: ConvId): (r: set<UserId>)
      reads this
      ensures Valid() ==> (r == {} <==> c !in conversationConnections)
      ensures c in conversationConnections ==> r == conversationConnections[c]
    {
      MembersAt(conversationConnections, c)
    }

    /** Registers `socket` as the connection of `u`, replacing an older one. */
    method Connect(u: UserId, socket: SocketId)
      modifies this
      ensures activeConnections == old(activeConnections)[u := socket]
      ensures conversationConnections == old(conversationConnections)
      ensures typingStatus == old(typingStatus) && outbox == old(outbox)
    {
      activeConnections := activeConnections[u := socket];
    }

    /** Forgets `u` everywhere: its connection, its membership of every
        conversation and its typing flag in every conversation; sets and
        maps left empty are dropped. */
    method Disconnect(u: UserId)
      requires Valid()
      modifies this`activeConnections, this`conversationConnections, this`typingStatus
      ensures Valid()
      ensures activeConnections == old(activeConnections) - {u}
      ensures conversationConnections == PurgeMembers(old(conversationConnections), {u})
      ensures typingStatus == PurgeTyping(old(typingStatus), {u})
    {
      activeConnections := activeConnections - {u};
      LeaveAllConversations(u);
      ClearTyping(u);
    }

    /** The loop of `Disconnect` over the conversations' member sets. */
    method LeaveAllConversations(u: UserId)
      requires NoEmptyMembers(conversationConnections)
      modifies this`conversationConnections
      ensures conversationConnections == PurgeMembers(old(conversationConnections), {u})
    {
      var pending := conversationConnections.Keys;
      ghost var members := conversationConnections;
      while pending != {}
        invariant pending <= members.Keys
        invariant conversationConnections.Keys <= members.Keys
        invariant conversationConnections == MembersPurgedExcept(members, u, pending)
        decreases |pending|
      {
        HasElement(pending);
        var c :| c in pending;
        MembersStep(members, u, pending, c);
        pending := pending - {c};
        if u in conversationConnections[c] {
          var rest := conversationConnections[c] - {u};
          if rest == {} {
            conversationConnections := conversationConnections - {c};
          } else {
            conversationConnections := conversationConnections[c := rest];
          }
        }
      }
      assert conversationConnections == PurgeMembers(members, {u});
    }

    /** The loop of `Disconnect` over the conversations' typing maps. */
    method ClearTyping(u: UserId)
      requires NoEmptyTyping(typingStatus)
      modifies this`typingStatus
      ensures typingStatus == PurgeTyping(old(typingStatus), {u})
    {
      var pending := typingStatus.Keys;
      ghost var typing := typingStatus;
      while pending != {}
        invariant pending <= typing.Keys
        invariant typingStatus.Keys <= typing.Keys
        invariant typingStatus == TypingPurgedExcept(typing, u, pending)
        decreases |pending|
      {
        HasElement(pending);
        var c :| c in pending;
        TypingStep(typing, u, pending, c);
        pending := pending - {c};
        if u in typingStatus[c] {
          var rest := typingStatus[c] - {u};
          if rest == map[] {
            typingStatus := typingStatus - {c};
          } else {
            typingStatus := typingStatus[c := rest];
          }
        }
      }
      assert typingStatus == PurgeTyping(typing, {u});
    }

    /** Writes `event` to the socket of `u`. `ok` is whether the socket
        accepts it. An unregistered user gets nothing; a refused send
        disconnects `u`. The result is true exactly when the event went out. */
    method SendPersonalMessage(event: Event, u: UserId, ok: bool) returns (sent: bool)
      requires Valid()
      modifies this
      ensures Valid()
      ensures sent <==> u in old(activeConnections) && ok
      ensures sent ==> outbox == old(outbox) + [Delivery(u, old(activeConnections)[u], event)]
      ensures !sent ==> outbox == old(outbox)
      ensures u in old(activeConnections) && !ok ==>
                && activeConnections == old(activeConnections) - {u}
                && conversationConnections == PurgeMembers(old(conversationConnections), {u})
                && typingStatus == PurgeTyping(old(typingStatus), {u})
      ensures !(u in old(activeConnections) && !ok) ==>
                && activeConnections == old(activeConnections)
                && conversationConnections == old(conversationConnections)
                && typingStatus == old(typingStatus)
    {
      if u in activeConnections {
        if ok {
          outbox := outbox + [Delivery(u, activeConnections[u], event)];
          sent := true;
        } else {
          Disconnect(u);
          sent := false;
        }
      } else {
        sent := false;
      }
    }

    /** Sends `event` to every member of conversation `c` except `exclude`,
        one member at a time, until a refused send disconnects its member
        and the iteration raises (see `Broadcast`). Counts how many members
        were addressed and how many sends succeeded. An unknown conversation
        gets nothing. */
    method SendToConversation(event: Event, c: ConvId, exclude: Option<UserId>, sendOk: UserId -> bool)
      returns (successes: nat, targets: nat, raised: bool, ghost handled: set<UserId>)
      requires Valid()
      modifies this
      ensures Valid()
      ensures Broadcast(State(), old(State()), Recipients(old(Members(c)), exclude), event, sendOk, handled, raised)
      ensures targets == |handled| && successes == |Reached(handled, old(activeConnections), sendOk)|
      ensures successes <= targets
      ensures forall k :: |old(outbox)| <= k < |outbox| ==>
                outbox[k].event == event && exclude != Some(outbox[k].to)
      ensures c !in old(conversationConnections) ==> !raised && targets == 0 && State() == old(State())
    {
      if c !in conversationConnections {
        BroadcastStart(State(), event, sendOk);
        assert Recipients(Members(c), exclude) == {};
        assert Dropped({}, activeConnections, sendOk) == {};
        return 0, 0, false, {};
      }
      var recipients := Recipients(conversationConnections[c], exclude);
      successes, targets, raised, handled := BroadcastTo(event, recipients, sendOk);
    }

    /** The loop of `SendToConversation`: one send per recipient, stopping
        right after a send whose refusal disconnected its recipient. */
    method BroadcastTo(event: Event, recipients: set<UserId>, sendOk: UserId -> bool)
      returns (successes: nat, targets: nat, raised: bool, ghost handled: set<UserId>)
      requires Valid()
      modifies this
      ensures Valid() && Broadcast(State(), old(State()), recipients, event, sendOk, handled, raised)
      ensures targets == |handled| && successes == |Reached(handled, old(activeConnections), sendOk)|
      ensures successes <= targets
      ensures forall k :: |old(outbox)| <= k < |outbox| ==> outbox[k].event == event && outbox[k].to in recipients
    {
      ghost var start := State();
      var pending := recipients;
      handled := {};
      successes, targets, raised := 0, 0, false;
      SendingStart(start, recipients, event, sendOk);
      while pending != {} && !raised
        invariant Valid()
        invariant Sending(State(), start, recipients, event, sendOk, handled, pending, raised, successes, targets)
        decreases |pending|
      {
        HasElement(pending);
        var v :| v in pending;
        var ok;
        ok, raised := SendOne(event, v, sendOk(v), start, recipients, handled, pending, successes, targets, sendOk);
        successes := successes + if ok then 1 else 0;
        pending := pending - {v};
        handled := handled + {v};
        targets := targets + 1;
      }
      BroadcastEnd(State(), start, recipients, event, sendOk, handled, pending, raised, successes, targets);
    }

    /** One send of a conversation broadcast, to the pending recipient `v`;
        `accepts` is whether its socket takes the event. `stop` is the
        iteration raising because the send was refused and `v`, now
        disconnected, left the member set being iterated. */
    method SendOne(event: Event, v: UserId, accepts: bool, ghost start: Snapshot, ghost recipients: set<UserId>,
                   ghost done: set<UserId>, ghost pending: set<UserId>, ghost successes: nat, ghost targets: nat,
                   ghost sendOk: UserId -> bool)
      returns (ok: bool, stop: bool)
      requires v in pending && accepts == sendOk(v)
      requires Valid() && Sending(State(), start, recipients, event, sendOk, done, pending, false, successes, targets)
      modifies this
      ensures Valid()
      ensures Sending(State(), start, recipients, event, sendOk, done + {v}, pending - {v}, stop,
                      successes + (if ok then 1 else 0), targets + 1)
      ensures ok <==> v in start.active && sendOk(v)
    {
      ghost var now := State();
      ReachedAdd(done, v, start.active, sendOk);
      DroppedAdd(done, v, start.active, sendOk);
      MoveToDone(recipients, done, v);
      assert activeConnections == start.active by {
        assert start.active - {} == start.active;
      }
      if v in start.active && accepts {
        BroadcastAccepted(now, start, done, event, sendOk, v);
      } else if v in start.active {
        BroadcastRefused(now, start, done, event, sendOk, v);
      } else {
        BroadcastAbsent(now, start, done, event, sendOk, v);
      }
      var connected := v in activeConnections;
      ok := SendPersonalMessage(event, v, accepts);
      // A refused send disconnects `v`, removing it from the member set
      // being iterated.
      stop := connected && !ok;
    }

    /** Marks conversation `c` as listened to by `u`. Adding a member twice
        is adding it once. */
    method AddToConversation(c: ConvId, u: UserId)
      requires Valid()
      modifies this
      ensures Valid()
      ensures forall d :: Members(d) == if d == c then old(Members(d)) + {u} else old(Members(d))
      ensures old(u in Members(c)) ==> conversationConnections == old(conversationConnections)
      ensures activeConnections == old(activeConnections) && typingStatus == old(typingStatus)
      ensures outbox == old(outbox)
    {
      var members := Members(c) + {u};
      if u in Members(c) {
        assert members == conversationConnections[c];
      }
      conversationConnections := conversationConnections[c := members];
    }

    /** Takes `u`, and only `u`, off conversation `c`, dropping the entry
        once nobody is left. An unknown conversation is left alone. */
    method RemoveFromConversation(c: ConvId, u: UserId)
      requires Valid()
      modifies this
      ensures Valid()
      ensures forall d :: Members(d) == if d == c then old(Members(d)) - {u} else old(Members(d))
      ensures c !in old(conversationConnections) ==> conversationConnections == old(conversationConnections)
      ensures activeConnections == old(activeConnections) && typingStatus == old(typingStatus)
      ensures outbox == old(outbox)
    {
      if c in conversationConnections {
        conversationConnections := conversationConnections[c := conversationConnections[c] - {u}];
        if conversationConnections[c] == {} {
          conversationConnections := conversationConnections - {c};
        }
      }
    }

    /** Who is typing in conversation `c`; an empty map for an unknown one. */
    function GetTypingStatus(c: ConvId): (r: map<UserId, bool>)
      reads this
      ensures Valid() ==> (r == map[] <==> c !in typingStatus)
      ensures c in typingStatus ==> r == typingStatus[c]
    {
      TypingAt(typingStatus, c)
    }

    /** Records whether `u` is typing in conversation `c`. */
    method SetTypingStatus(c: ConvId, u: UserId, isTyping: bool)
      requires Valid()
      modifies this
      ensures Valid()
      ensures typingStatus == WithTyping(old(typingStatus), c, u, isTyping)
      ensures forall d :: GetTypingStatus(d) ==
                if d == c then old(GetTypingStatus(d))[u := isTyping] else old(GetTypingStatus(d))
      ensures activeConnections == old(activeConnections)
      ensures conversationConnections == old(conversationConnections) && outbox == old(outbox)
    {
      var entry: map<UserId, bool> := if c in typingStatus then typingStatus[c] else map[];
      assert u in entry[u := isTyping];
      typingStatus := typingStatus[c := entry[u := isTyping]];
    }

    /** Records the typing flag of `u` and tells the other members of `c`,
        raising as `SendToConversation` does. The flag survives the
        broadcast, since `u` is never addressed. */
    method BroadcastTypingStatus(c: ConvId, u: UserId, isTyping: bool, sendOk: UserId -> bool)
      returns (raised: bool, ghost handled: set<UserId>)
      requires Valid()
      modifies this
      ensures Valid()
      ensures Broadcast(State(), old(State()).(typing := WithTyping(old(typingStatus), c, u, isTyping)),
                        Recipients(old(Members(c)), Some(u)), TypingStatus(c, u, isTyping), sendOk, handled, raised)
      ensures c in typingStatus && u in typingStatus[c] && typingStatus[c][u] == isTyping
      ensures forall k :: |old(outbox)| <= k < |outbox| ==>
                outbox[k].event == TypingStatus(c, u, isTyping) && outbox[k].to != u
    {
      SetTypingStatus(c, u, isTyping);
      assert u in GetTypingStatus(c) && GetTypingStatus(c)[u] == isTyping;
      ghost var typing := typingStatus;
      ghost var active := activeConnections;
      assert c in typing && typing[c][u] == isTyping;
      var successes, targets;
      successes, targets, raised, handled := SendToConversation(TypingStatus(c, u, isTyping), c, Some(u), sendOk);
      ghost var dropped := Dropped(handled, active, sendOk);
      assert u !in dropped;
      assert TypingAt(typingStatus, c) == typing[c] - dropped;
    }
  }

  /** One step of the member-set loop of a disconnect: handling conversation
      `c` removes `u` from its set and drops the set if that empties it. */
  lemma MembersStep(members: map<ConvId, set<UserId>>, u: UserId, pending: set<ConvId>, c: ConvId)
    requires c in pending && pending <= members.Keys
    ensures var cur := MembersPurgedExcept(members, u, pending);
            var next := MembersPurgedExcept(members, u, pending - {c});
            && c in cur && cur[c] == members[c]
            && (u !in members[c] ==> next == cur)
            && (u in members[c] && members[c] - {u} == {} ==> next == cur - {c})
            && (u in members[c] && members[c] - {u} != {} ==> next == cur[c := members[c] - {u}])
  {
    var cur := MembersPurgedExcept(members, u, pending);
    var next := MembersPurgedExcept(members, u, pending - {c});
    if u !in members[c] {
      assert members[c] - {u} == members[c];
      assert next == cur;
    } else if members[c] - {u} == {} {
      assert next == cur - {c};
    } else {
      assert next == cur[c := members[c] - {u}];
    }
  }

  /** One step of the typing loop of a disconnect. */
  lemma TypingStep(typing: map<ConvId, map<UserId, bool>>, u: UserId, pending: set<ConvId>, c: ConvId)
    requires c in pending && pending <= typing.Keys
    ensures var cur := TypingPurgedExcept(typing, u, pending);
            var next := TypingPurgedExcept(typing, u, pending - {c});
            && c in cur && cur[c] == typing[c]
            && (u !in typing[c] ==> next == cur)
            && (u in typing[c] && typing[c] - {u} == map[] ==> next == cur - {c})
            && (u in typing[c] && typing[c] - {u} != map[] ==> next == cur[c := typing[c] - {u}])
  {
    var cur := TypingPurgedExcept(typing, u, pending);
    var next := TypingPurgedExcept(typing, u, pending - {c});
    if u !in typing[c] {
      assert typing[c] - {u} == typing[c];
      assert next == cur;
    } else if typing[c] - {u} == map[] {
      assert next == cur - {c};
    } else {
      assert next == cur[c := typing[c] - {u}];
    }
  }

  /** The member sets while a disconnect of `u` is under way: the
      conversations still `pending` are untouched, the others have lost `u`. */
  ghost function MembersPurgedExcept(members: map<ConvId, set<UserId>>, u: UserId, pending: set<ConvId>): map<ConvId, set<UserId>>
  {
    map c | c in members && (c in pending || u !in members[c] || members[c] - {u} != {}) ::
      if c in pending then members[c] else members[c] - {u}
  }

  ghost function TypingPurgedExcept(typing: map<ConvId, map<UserId, bool>>, u: UserId, pending: set<ConvId>): map<ConvId, map<UserId, bool>>
  {
    map c | c in typing && (c in pending || u !in typing[c] || typing[c] - {u} != map[]) ::
      if c in pending then typing[c] else typing[c] - {u}
  }
}
