/** The persisted records of the chat server: users, conversations and
    messages (app/models.py), with the keep flags and the 300-second
    countdown that a conversation derives from its start time and a clock
    reading. */
module Models {
  import opened Wrappers

  type UserId = nat
  type ConvId = nat
  type MessageId = nat

  /** Seconds since a fixed epoch; the clock is always a parameter. */
  type Time = real

  /** A user's pairing state. The source stores it in a string column and
      writes only "waiting" (the default), "searching" and "connected". */
  datatype UserState = Waiting | Searching | Connected

  /** A row of the users table. Nullable columns are options; `interests`
      is the decoded JSON list, where an unset column reads as the empty list. */
  datatype User = User(
    username: string,
    nickname: Option<string>,
    dob: Option<Time>,
    gender: Option<string>,
    preference: Option<string>,
    goal: Option<string>,
    interests: seq<string>,
    state: UserState)

  /** A row of the messages table. */
  datatype Message = Message(
    id: MessageId,
    conversationId: ConvId,
    senderId: UserId,
    content: string,
    messageType: string,
    createdAt: Time)

  /** Length of the keep-or-leave window of a new conversation, in seconds. */
  const CountdownSeconds: int := 300

  /** Python's `int()` on a float: the integer part, truncating toward zero. */
  function Trunc(x: real): (r: int)
    ensures 0.0 <= x ==> r as real <= x < r as real + 1.0
    ensures x < 0.0 ==> r as real - 1.0 < x <= r as real
  {
    if x >= 0.0 then x.Floor else -((-x).Floor)
  }

  /** A row of the conversations table. The participants and the type never
      change after creation; the keep flags, the activity time and the active
      flag are updated in place. */
  class Conversation {
    const id: ConvId
    const user1Id: UserId
    const user2Id: UserId
    const conversationType: string
    var user1Keep: bool
    var user2Keep: bool
    var isActive: bool
    var lastActivity: Time
    var countdownStart: Option<Time>

    /** A newly inserted conversation: the column defaults leave both keep
        flags false and the conversation active; its activity time and its
        countdown both start at `now`. */
    constructor (id: ConvId, user1Id: UserId, user2Id: UserId, conversationType: string, now: Time)
      ensures this.id == id && this.user1Id == user1Id && this.user2Id == user2Id
      ensures this.conversationType == conversationType
      ensures !user1Keep && !user2Keep && isActive
      ensures lastActivity == now && countdownStart == Some(now)
      ensures !BothKept() && CountdownTimeLeft(now) == CountdownSeconds
    {
      this.id := id;
      this.user1Id := user1Id;
      this.user2Id := user2Id;
      this.conversationType := conversationType;
      user1Keep, user2Keep, isActive := false, false, true;
      lastActivity := now;
      countdownStart := Some(now);
    }

    predicate IsParticipant(u: UserId) {
      u == user1Id || u == user2Id
    }

    /** The keep decision of `u`; anyone who is not a participant reads as
        not keeping. */
    function GetKeepStatus(u: UserId): (r: bool)
      reads this
      ensures r ==> IsParticipant(u)
      ensures u == user1Id ==> r == user1Keep
      ensures u != user1Id && u == user2Id ==> r == user2Keep
      ensures IsParticipant(u) && user1Keep && user2Keep ==> r
    {
      if u == user1Id then user1Keep
      else if u == user2Id then user2Keep
      else false
    }

    /** Records the keep decision of `u`: the first participant's flag when
        `u` is the first participant, otherwise the second's when `u` is the
        second; any other id changes nothing. */
    method SetKeepStatus(u: UserId, status: bool)
      modifies this`user1Keep, this`user2Keep
      ensures u == user1Id ==> user1Keep == status && user2Keep == old(user2Keep)
      ensures u != user1Id && u == user2Id ==> user2Keep == status && user1Keep == old(user1Keep)
      ensures !IsParticipant(u) ==> user1Keep == old(user1Keep) && user2Keep == old(user2Keep)
      ensures IsParticipant(u) ==> GetKeepStatus(u) == status
      ensures IsParticipant(u) && !status ==> !BothKept()
    {
      if u == user1Id {
        user1Keep := status;
      } else if u == user2Id {
        user2Keep := status;
      }
    }

    /** Both participants have chosen to keep the conversation. */
    function BothKept(): (r: bool)
      reads this
      ensures r ==> GetKeepStatus(user1Id) && GetKeepStatus(user2Id)
      ensures user1Id != user2Id ==> (r <==> GetKeepStatus(user1Id) && GetKeepStatus(user2Id))
      ensures r <==> user1Keep && user2Keep
    {
      user1Keep && user2Keep
    }

    /** Whole seconds left of the countdown at time `now`: never negative,
        the full window when no start time is recorded, at most the full
        window once the start time has passed, and zero exactly when more
        than 299 seconds have elapsed (the fraction is truncated). */
    function CountdownTimeLeft(now: Time): (r: int)
      reads this
      ensures r >= 0
      ensures countdownStart.None? ==> r == CountdownSeconds
      ensures countdownStart.Some? && countdownStart.value <= now ==> r <= CountdownSeconds
      ensures countdownStart.Some? ==>
                (r == 0 <==> now - countdownStart.value > (CountdownSeconds - 1) as real)
      ensures countdownStart.Some? && now - countdownStart.value <= CountdownSeconds as real ==>
                r == (CountdownSeconds as real - (now - countdownStart.value)).Floor
    {
      match countdownStart
      case None => CountdownSeconds
      case Some(start) =>
        var left := Trunc(CountdownSeconds as real - (now - start));
        if left < 0 then 0 else left
    }

    /** The countdown has run out. */
    function IsCountdownExpired(now: Time): (r: bool)
      reads this
      ensures r <==> CountdownTimeLeft(now) == 0
    {
      CountdownTimeLeft(now) <= 0
    }
  }

  /** `int()` never decreases when its argument grows. */
  lemma TruncMonotonic(x: real, y: real)
    requires x <= y
    ensures Trunc(x) <= Trunc(y)
  {
  }

  /** The time left never grows as the clock advances. */
  lemma CountdownNonIncreasing(c: Conversation, t1: Time, t2: Time)
    requires t1 <= t2
    ensures c.CountdownTimeLeft(t2) <= c.CountdownTimeLeft(t1)
  {
    if c.countdownStart.Some? {
      var start := c.countdownStart.value;
      TruncMonotonic(CountdownSeconds as real - (t2 - start), CountdownSeconds as real - (t1 - start));
    }
  }

  /** Once expired, a conversation stays expired as the clock advances. */
  lemma ExpiredStaysExpired(c: Conversation, t1: Time, t2: Time)
    requires t1 <= t2 && c.IsCountdownExpired(t1)
    ensures c.IsCountdownExpired(t2)
  {
    CountdownNonIncreasing(c, t1, t2);
  }

  /** A conversation whose countdown started is expired no later than the
      full window after its start. */
  lemma ExpiredAfterWindow(c: Conversation, now: Time)
    requires c.countdownStart.Some? && now >= c.countdownStart.value + CountdownSeconds as real
    ensures c.IsCountdownExpired(now)
  {
  }

  /** A freshly registered user: every profile column unset, state "waiting". */
  function NewUser(username: string): (u: User)
    ensures u.username == username && u.state == Waiting
    ensures u.nickname.None? && u.interests == []
  {
    User(username, None, None, None, None, None, [], Waiting)
  }

  /** A set that is not empty has a member; the loops that drain a set of ids
      use it to pick the next key. */
  lemma HasElement(s: set<nat>)
    requires s != {}
    ensures exists x :: x in s
  {
    if forall x :: x !in s {
      assert false;
    }
  }
}
