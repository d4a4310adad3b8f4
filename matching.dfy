/** The matching engine (app/matching.py): a compatibility score between two
    user profiles, the choice of a partner among the users who are searching,
    and the creation, ending and idle clean-up of conversations. */
module Matching {
  import opened Wrappers
  import opened Models
  import opened Database

  /** The preference value that accepts every gender ("all"). */
  const AnyGender: string := "Tất cả"

  /** Scores at or above this put a candidate among the best matches. */
  const BestThreshold: real := 0.8
  /** Scores at or above this (and below the best threshold) make a good match. */
  const GoodThreshold: real := 0.5
  /** A conversation idle for longer than this (15 minutes) may be cleaned up. */
  const InactivitySeconds: real := 900.0

  /** The goal pairs that count as compatible, in either order. */
  const CompatibleGoalPairs: seq<(string, string)> := [
    ("Một mối quan hệ nhẹ nhàng, vui vẻ", "Chưa chắc, muốn khám phá thêm"),
    ("Một mối quan hệ nghiêm túc", "Kết hôn"),
    ("Một mối quan hệ nghiêm túc", "Bạn đời lâu dài"),
    ("Kết hôn", "Bạn đời lâu dài"),
    ("Kết bạn mới thôi 🥰", "Một mối quan hệ nhẹ nhàng, vui vẻ")
  ]

  /** Two goals appear together in the compatibility table, in either order;
      an unset goal is compatible with nothing. */
  predicate GoalsCompatible(g1: Option<string>, g2: Option<string>) {
    g1.Some? && g2.Some? &&
    ((g1.value, g2.value) in CompatibleGoalPairs || (g2.value, g1.value) in CompatibleGoalPairs)
  }

  lemma GoalsCompatibleSymmetric(g1: Option<string>, g2: Option<string>)
    ensures GoalsCompatible(g1, g2) == GoalsCompatible(g2, g1)
  {
  }

  /** One direction of the gender-preference factor: full when the
      preference is "all" or names the other user's gender, otherwise none. */
  function PreferenceFactor(preference: Option<string>, gender: Option<string>): (r: real)
    ensures r == 0.0 || r == 1.0
    ensures r == 1.0 <==> preference == Some(AnyGender) || preference == gender
  {
    if preference == Some(AnyGender) || preference == gender then 1.0 else 0.0
  }

  /** The goal factor: full for equal goals, 0.7 for a compatible pair,
      0.3 otherwise. */
  function GoalFactor(g1: Option<string>, g2: Option<string>): (r: real)
    ensures r == 1.0 || r == 0.7 || r == 0.3
    ensures r == 1.0 <==> g1 == g2
    ensures r == 0.7 <==> g1 != g2 && GoalsCompatible(g1, g2)
    ensures r == 0.3 <==> g1 != g2 && !GoalsCompatible(g1, g2)
  {
    if g1 == g2 then 1.0
    else if GoalsCompatible(g1, g2) then 0.7
    else 0.3
  }

  /** The interests two users share, duplicates ignored. */
  function CommonInterests(i1: seq<string>, i2: seq<string>): set<string> {
    (set x | x in i1) * (set x | x in i2)
  }

  /** The interest factor: half a point per shared interest, capped at one. */
  function InterestFactor(i1: seq<string>, i2: seq<string>): (r: real)
    ensures r == 0.0 || r == 0.5 || r == 1.0
    ensures r == 0.0 <==> CommonInterests(i1, i2) == {}
    ensures r == 0.5 <==> |CommonInterests(i1, i2)| == 1
    ensures r == 1.0 <==> |CommonInterests(i1, i2)| >= 2
  {
    var half := |CommonInterests(i1, i2)| as real / 2.0;
    if half < 1.0 then half else 1.0
  }

  /** The interest factor takes part only when both users listed interests. */
  predicate InterestsCounted(a: User, b: User) {
    |a.interests| > 0 && |b.interests| > 0
  }

  function FactorCount(a: User, b: User): (n: int)
    ensures n == 3 || n == 4
    ensures n == 4 <==> InterestsCounted(a, b)
  {
    if InterestsCounted(a, b) then 4 else 3
  }

  /** The compatibility of `a` with `b`: the mean of the two preference
      factors, the goal factor and, when both have interests, the interest
      factor. */
  function Compatibility(a: User, b: User): (r: real)
    ensures 0.0 <= r <= 1.0
  {
    var sum := PreferenceFactor(a.preference, b.gender) + PreferenceFactor(b.preference, a.gender)
               + GoalFactor(a.goal, b.goal)
               + (if InterestsCounted(a, b) then InterestFactor(a.interests, b.interests) else 0.0);
    sum / FactorCount(a, b) as real
  }

  /** The score does not depend on which of the two users asks. */
  lemma CompatibilitySymmetric(a: User, b: User)
    ensures Compatibility(a, b) == Compatibility(b, a)
  {
    GoalsCompatibleSymmetric(a.goal, b.goal);
    assert CommonInterests(a.interests, b.interests) == CommonInterests(b.interests, a.interests);
  }

  /** A best-bucket score is only reached when each user's gender
      preference accepts the other. */
  lemma BestMatchesAcceptEachOther(a: User, b: User)
    requires Compatibility(a, b) >= BestThreshold
    ensures PreferenceFactor(a.preference, b.gender) == 1.0
    ensures PreferenceFactor(b.preference, a.gender) == 1.0
  {
  }

  /** A perfect score means every factor that takes part is full. */
  lemma PerfectCompatibility(a: User, b: User)
    ensures Compatibility(a, b) == 1.0 <==>
              && PreferenceFactor(a.preference, b.gender) == 1.0
              && PreferenceFactor(b.preference, a.gender) == 1.0
              && a.goal == b.goal
              && (InterestsCounted(a, b) ==> |CommonInterests(a.interests, b.interests)| >= 2)
  {
  }

  /** `c` may be offered to `u`: another user, still searching, and not
      already in an active conversation with `u`. */
  predicate Eligible(db: Store, u: UserId, c: UserId)
    reads db, db.conversations.Values
  {
    c != u && db.IsSearching(c) && !db.ActiveBetween(u, c)
  }

  /** The score of candidate `c` for user `u`, as stored. */
  function Score(db: Store, u: UserId, c: UserId): real
    requires u in db.users && c in db.users
    reads db
  {
    Compatibility(db.users[u], db.users[c])
  }

  datatype Scored = Scored(user: UserId, score: real)

  /** The head of a bucket after the stable sort by descending score: the
      first entry whose score is maximal. */
  method FirstMax(bucket: seq<Scored>) returns (k: nat)
    requires |bucket| > 0
    ensures k < |bucket|
    ensures forall j :: 0 <= j < |bucket| ==> bucket[j].score <= bucket[k].score
    ensures forall j :: 0 <= j < k ==> bucket[j].score < bucket[k].score
  {
    k := 0;
    for i := 1 to |bucket|
      invariant k < i
      invariant forall j :: 0 <= j < i ==> bucket[j].score <= bucket[k].score
      invariant forall j :: 0 <= j < k ==> bucket[j].score < bucket[k].score
    {
      if bucket[i].score > bucket[k].score {
        k := i;
      }
    }
  }

  /** An active conversation that nobody touched for the inactivity limit
      and that neither participant chose to keep. */
  predicate Stale(c: Conversation, now: Time)
    reads c
  {
    c.isActive && c.lastActivity < now - InactivitySeconds && !c.user1Keep && !c.user2Keep
  }

  ghost function StaleIds(db: Store, now: Time): set<ConvId>
    reads db, db.conversations.Values
  {
    set id | id in db.conversations && Stale(db.conversations[id], now)
  }

  /** Everyone who takes part in one of the conversations `ids`. */
  ghost function ParticipantsOf(db: Store, ids: set<ConvId>): set<UserId>
    reads db
  {
    (set id | id in ids && id in db.conversations :: db.conversations[id].user1Id) +
    (set id | id in ids && id in db.conversations :: db.conversations[id].user2Id)
  }

  lemma ParticipantsOfAdd(db: Store, ids: set<ConvId>, id: ConvId)
    requires id in db.conversations
    ensures ParticipantsOf(db, ids + {id}) ==
              ParticipantsOf(db, ids) + {db.conversations[id].user1Id, db.conversations[id].user2Id}
  {
  }

  /** Why `create_conversation` refused (it raises `ValueError`). */
  datatype MatchError = UserNotFound | NotSearching | ActiveConversationExists

  class MatchingService {
    const db: Store

    constructor (db: Store)
      ensures this.db == db
    {
      this.db := db;
    }

    /** Picks a partner for `user` among the other searching users with whom
        `user` has no active conversation. A candidate scoring at least 0.8
        wins if there is one, else one scoring at least 0.5, the highest
        score first in both cases; otherwise any eligible candidate is drawn.
        Nothing comes back when `user` is no longer searching or nobody is
        eligible. The requested session type plays no part. */
    method FindMatch(user: UserId, searchType: string) returns (m: Option<UserId>)
      requires db.Valid()
      ensures m.None? <==> !db.IsSearching(user) || forall c :: !Eligible(db, user, c)
      ensures m.Some? ==> db.IsSearching(user) && Eligible(db, user, m.value)
      ensures m.Some? && (exists c :: Eligible(db, user, c) && Score(db, user, c) >= BestThreshold) ==>
                Score(db, user, m.value) >= BestThreshold
      ensures m.Some? && (exists c :: Eligible(db, user, c) && Score(db, user, c) >= GoodThreshold) ==>
                forall c :: Eligible(db, user, c) ==> Score(db, user, c) <= Score(db, user, m.value)
    {
      var potential := db.SearchingUsersExcept(user);
      assert forall c :: Eligible(db, user, c) ==> c in potential;
      if potential == [] {
        assert forall c :: !Eligible(db, user, c);
        return None;
      }
      // Re-read of the searching user's own state.
      if !db.IsSearching(user) {
        return None;
      }
      var best, good, others := Classify(user, potential);
      if best != [] {
        var k := FirstMax(best);
        assert Eligible(db, user, best[k].user);
        m := Some(best[k].user);
      } else if good != [] {
        var k := FirstMax(good);
        assert Eligible(db, user, good[k].user);
        m := Some(good[k].user);
      } else if others != [] {
        // A uniformly random draw in the source; any entry here.
        var k :| 0 <= k < |others|;
        assert Eligible(db, user, others[k].user);
        m := Some(others[k].user);
      } else {
        assert best + good + others == [];
        m := None;
      }
    }

    /** Sorts the candidates into the three buckets of the source: a
        candidate already in an active conversation with `user`, or no longer
        searching, is skipped; the others go to the best, good or remaining
        bucket by score. Every eligible candidate lands in exactly its bucket. */
    method Classify(user: UserId, potential: seq<UserId>) returns (best: seq<Scored>, good: seq<Scored>, others: seq<Scored>)
      requires user in db.users
      requires forall c :: c in potential ==> c != user
      ensures forall k :: 0 <= k < |best| ==>
                Eligible(db, user, best[k].user) && best[k].score == Score(db, user, best[k].user) &&
                best[k].score >= BestThreshold
      ensures forall k :: 0 <= k < |good| ==>
                Eligible(db, user, good[k].user) && good[k].score == Score(db, user, good[k].user) &&
                GoodThreshold <= good[k].score < BestThreshold
      ensures forall k :: 0 <= k < |others| ==>
                Eligible(db, user, others[k].user) && others[k].score == Score(db, user, others[k].user) &&
                others[k].score < GoodThreshold
      ensures forall c :: c in potential && Eligible(db, user, c) && Score(db, user, c) >= BestThreshold ==>
                Scored(c, Score(db, user, c)) in best
      ensures forall c ::
                (c in potential && Eligible(db, user, c) &&
                 GoodThreshold <= Score(db, user, c) < BestThreshold) ==>
                Scored(c, Score(db, user, c)) in good
      ensures forall c :: c in potential && Eligible(db, user, c) && Score(db, user, c) < GoodThreshold ==>
                Scored(c, Score(db, user, c)) in others
      ensures forall c :: c in potential && Eligible(db, user, c) ==> best + good + others != []
    {
      best, good, others := [], [], [];
      for i := 0 to |potential|
        invariant forall k :: 0 <= k < |best| ==>
                    Eligible(db, user, best[k].user) && best[k].score == Score(db, user, best[k].user) &&
                    best[k].score >= BestThreshold
        invariant forall k :: 0 <= k < |good| ==>
                    Eligible(db, user, good[k].user) && good[k].score == Score(db, user, good[k].user) &&
                    GoodThreshold <= good[k].score < BestThreshold
        invariant forall k :: 0 <= k < |others| ==>
                    Eligible(db, user, others[k].user) && others[k].score == Score(db, user, others[k].user) &&
                    others[k].score < GoodThreshold
        invariant forall c :: c in potential[..i] && Eligible(db, user, c) && Score(db, user, c) >= BestThreshold ==>
                    Scored(c, Score(db, user, c)) in best
        invariant forall c ::
                    (c in potential[..i] && Eligible(db, user, c) &&
                     GoodThreshold <= Score(db, user, c) < BestThreshold) ==>
                    Scored(c, Score(db, user, c)) in good
        invariant forall c :: c in potential[..i] && Eligible(db, user, c) && Score(db, user, c) < GoodThreshold ==>
                    Scored(c, Score(db, user, c)) in others
        invariant forall c :: c in potential[..i] && Eligible(db, user, c) ==> best + good + others != []
      {
        var c := potential[i];
        assert c in potential;
        assert potential[..i + 1] == potential[..i] + [c];
        if db.ActiveBetween(user, c) {
          continue;
        }
        // Re-read of the candidate's state.
        if !db.IsSearching(c) {
          continue;
        }
        var s := Compatibility(db.users[user], db.users[c]);
        assert Eligible(db, user, c) && s == Score(db, user, c);
        if s >= BestThreshold {
          best := best + [Scored(c, s)];
        } else if s >= GoodThreshold {
          good := good + [Scored(c, s)];
        } else {
          others := others + [Scored(c, s)];
        }
      }
      assert potential[..|potential|] == potential;
    }

    /** Opens a conversation of the given type between two users after
        re-checking that both exist, both are searching, and no active
        conversation already pairs them; on success both become connected.
        A refusal changes nothing. */
    method CreateConversation(user1: UserId, user2: UserId, conversationType: string, now: Time)
      returns (r: Result<Conversation, MatchError>)
      requires db.Valid()
      modifies db`users, db`conversations, db`nextConversationId
      ensures db.Valid()
      ensures user1 !in old(db.users) || user2 !in old(db.users) ==> r == Failure(UserNotFound)
      ensures (user1 in old(db.users) && user2 in old(db.users) &&
               !(old(db.IsSearching(user1)) && old(db.IsSearching(user2)))) ==> r == Failure(NotSearching)
      ensures old(db.IsSearching(user1)) && old(db.IsSearching(user2)) && old(db.ActiveBetween(user1, user2)) ==>
                r == Failure(ActiveConversationExists)
      ensures r.Failure? <==>
                !(old(db.IsSearching(user1)) && old(db.IsSearching(user2)) && !old(db.ActiveBetween(user1, user2)))
      ensures r.Failure? ==>
                db.users == old(db.users) && db.conversations == old(db.conversations) &&
                db.nextConversationId == old(db.nextConversationId)
      ensures r.Success? ==>
                && old(db.IsSearching(user1)) && old(db.IsSearching(user2))
                && !old(db.ActiveBetween(user1, user2))
                && fresh(r.value)
                && r.value.id == old(db.nextConversationId)
                && r.value.user1Id == user1 && r.value.user2Id == user2
                && r.value.conversationType == conversationType
                && r.value.isActive && !r.value.user1Keep && !r.value.user2Keep
                && r.value.countdownStart == Some(now) && r.value.lastActivity == now
                && db.conversations == old(db.conversations)[r.value.id := r.value]
                && db.users == old(db.users)[user1 := old(db.users)[user1].(state := Connected)]
                                            [user2 := old(db.users)[user2].(state := Connected)]
      ensures old(db.UniqueActivePairs()) ==> db.UniqueActivePairs()
    {
      if user1 !in db.users || user2 !in db.users {
        return Failure(UserNotFound);
      }
      if db.users[user1].state != Searching || db.users[user2].state != Searching {
        return Failure(NotSearching);
      }
      if db.ActiveBetween(user1, user2) {
        return Failure(ActiveConversationExists);
      }
      var c := new Conversation(db.nextConversationId, user1, user2, conversationType, now);
      db.conversations := db.conversations[c.id := c];
      db.nextConversationId := db.nextConversationId + 1;
      ConnectPair(user1, user2);
      r := Success(c);
    }

    /** Both participants of a new conversation move to "connected". */
    method ConnectPair(a: UserId, b: UserId)
      requires db.Valid() && a in db.users && b in db.users
      modifies db`users
      ensures db.Valid()
      ensures db.users == old(db.users)[a := old(db.users)[a].(state := Connected)]
                                       [b := old(db.users)[b].(state := Connected)]
    {
      db.users := db.users[a := db.users[a].(state := Connected)];
      db.users := db.users[b := db.users[b].(state := Connected)];
    }

    /** Marks the conversation ended and returns both participants to
        "waiting" (those that still exist). Ending an ended conversation
        again leaves the same state (see `ReleaseIdempotent`). */
    method EndConversation(c: Conversation)
      requires db.Valid()
      modifies db`users, c`isActive
      ensures db.Valid()
      ensures !c.isActive
      ensures db.users == Release(old(db.users), {c.user1Id, c.user2Id})
      ensures old(db.UniqueActivePairs()) ==> db.UniqueActivePairs()
    {
      ReleasePair(c.user1Id, c.user2Id);
      c.isActive := false;
    }

    /** Both participants of an ended conversation go back to "waiting". */
    method ReleasePair(a: UserId, b: UserId)
      requires db.Valid()
      modifies db`users
      ensures db.Valid()
      ensures db.users == Release(old(db.users), {a, b})
    {
      ghost var before := db.users;
      if a in db.users {
        db.users := db.users[a := db.users[a].(state := Waiting)];
      }
      ReleaseOne(before, a);
      ghost var between := db.users;
      if b in db.users {
        db.users := db.users[b := db.users[b].(state := Waiting)];
      }
      ReleaseOne(between, b);
      ReleaseTwice(before, {a}, {b});
      assert {a} + {b} == {a, b};
    }

    /** The query "active conversations idle for more than 15 minutes and
        kept by neither participant", in no particular order. */
    method StaleConversations(now: Time) returns (stale: seq<ConvId>)
      ensures forall id :: id in stale <==> id in StaleIds(db, now)
    {
      var todo := db.conversations.Keys;
      stale := [];
      while todo != {}
        invariant todo <= db.conversations.Keys
        invariant forall id :: id in stale ==> id in db.conversations && Stale(db.conversations[id], now)
        invariant forall id :: id in db.conversations && id !in todo && Stale(db.conversations[id], now) ==> id in stale
        decreases |todo|
      {
        HasElement(todo);
        var id :| id in todo;
        todo := todo - {id};
        if Stale(db.conversations[id], now) {
          stale := stale + [id];
        }
      }
    }

    /** One step of the cleanup: ends conversation `id`, adding its
        participants to those released from `users` so far. */
    method EndStale(id: ConvId, ghost users: map<UserId, User>, ghost done: set<ConvId>)
      requires db.Valid() && id in db.conversations
      requires db.users == Release(users, ParticipantsOf(db, done))
      modifies db`users, db.conversations.Values`isActive
      ensures db.Valid() && db.conversations == old(db.conversations)
      ensures forall d :: d in db.conversations ==>
                db.conversations[d].isActive == (old(db.conversations[d].isActive) && d != id)
      ensures db.users == Release(users, ParticipantsOf(db, done + {id}))
    {
      var c := db.conversations[id];
      EndConversation(c);
      ParticipantsOfAdd(db, done, id);
      ReleaseTwice(users, ParticipantsOf(db, done), {c.user1Id, c.user2Id});
    }

    /** Ends exactly the conversations that were stale at `now`: active,
        idle for more than 15 minutes and kept by neither participant. */
    method CleanupInactiveConversations(now: Time)
      requires db.Valid()
      modifies db`users, db.conversations.Values`isActive
      ensures db.Valid()
      ensures forall id :: id in db.conversations ==>
                db.conversations[id].isActive ==
                  (old(db.conversations[id].isActive) && id !in old(StaleIds(db, now)))
      ensures db.users == Release(old(db.users), old(ParticipantsOf(db, StaleIds(db, now))))
    {
      // The query, run once before anything is ended.
      var stale := StaleConversations(now);
      ghost var staleIds := StaleIds(db, now);
      assert staleIds == old(StaleIds(db, now));
      ghost var participants := ParticipantsOf(db, staleIds);
      assert participants == old(ParticipantsOf(db, StaleIds(db, now)));
      ghost var conversations := db.conversations;
      ghost var done: set<ConvId> := {};
      assert ParticipantsOf(db, done) == {};
      assert Release(old(db.users), {}) == old(db.users);
      for i := 0 to |stale|
        invariant db.Valid()
        invariant db.conversations == conversations
        invariant forall id :: id in stale ==> id in conversations
        invariant forall k :: 0 <= k < i ==> stale[k] in done
        invariant done <= staleIds
        invariant forall id :: id in db.conversations ==>
                    db.conversations[id].isActive == (old(db.conversations[id].isActive) && id !in done)
        invariant db.users == Release(old(db.users), ParticipantsOf(db, done))
      {
        assert stale[i] in stale;
        EndStale(stale[i], old(db.users), done);
        done := done + {stale[i]};
      }
      assert done == staleIds by {
        forall id | id in staleIds
          ensures id in done
        {
          assert id in stale;
        }
      }
      assert ParticipantsOf(db, done) == participants;
    }
  }
}
