/** The document store behind the REST routes of the server, reduced to
    what the ledger routes read and write: users with their points and
    joined challenges, the completion records, and each challenge's
    participant count. Each route handler is a method of `Store`. */
module Backend {
  import opened Common
  import opened Streaks

  /** A user document: points (schema default 0) and joined challenge ids. */
  datatype UserDoc = UserDoc(points: nat, challenges: seq<ChallengeId>)

  /** Failures the ledger routes report. */
  datatype Error =
    | ChallengeNotFound   // 404 from join
    | AlreadyCompleted    // 400 from create-completion
    | PhotoRequired       // the schema's `required` photo fails validation (500)
    | UserNotFound        // statistics of a missing user fails (500)

  /** The body of `GET /api/statistics/:userId`. */
  datatype Statistics = Statistics(
    totalPoints: nat,
    totalCompletions: nat,
    totalChallenges: nat,
    currentStreak: nat,
    longestStreak: nat,
    completionRate: nat)

  predicate NoDuplicates(s: seq<ChallengeId>)
  {
    forall i, j :: 0 <= i < j < |s| ==> s[i] != s[j]
  }

  /** `$addToSet`: appends `x` unless it is already there. */
  function AddToSet(s: seq<ChallengeId>, x: ChallengeId): (r: seq<ChallengeId>)
    ensures forall y :: y in r <==> y in s || y == x
    ensures |r| == if x in s then |s| else |s| + 1
    ensures NoDuplicates(s) ==> NoDuplicates(r)
  {
    if x in s then s else s + [x]
  }

  /** The completion rate: 0 without challenges, otherwise the completions
      per challenge as a percentage rounded half up (it may exceed 100). */
  function CompletionRate(completions: nat, challenges: nat): (r: nat)
    ensures challenges == 0 ==> r == 0
    ensures challenges > 0 ==> 2 * challenges * r <= 200 * completions + challenges < 2 * challenges * (r + 1)
  {
    if challenges > 0 then RoundedPercent(completions, challenges) else 0
  }

  /** Every user's points are ten per completion they own. */
  ghost predicate LedgerBalanced(users: map<UserId, UserDoc>, completions: seq<Completion>)
  {
    forall u :: u in users ==> users[u].points == 10 * |CompletionsOf(completions, u)|
  }

  /** The user map after one completion of `u` earns its 10 points. */
  function Award(users: map<UserId, UserDoc>, u: UserId): (r: map<UserId, UserDoc>)
    ensures r.Keys == users.Keys
    ensures u in users ==> r[u] == users[u].(points := users[u].points + 10)
    ensures forall v :: v in users && v != u ==> r[v] == users[v]
  {
    if u in users then users[u := users[u].(points := users[u].points + 10)] else users
  }

  /** Saving a completion and awarding its points keeps the ledger balanced. */
  lemma LedgerAfterCreate(users: map<UserId, UserDoc>, s: seq<Completion>, c: Completion)
    requires LedgerBalanced(users, s)
    ensures LedgerBalanced(Award(users, c.userId), s + [c])
  {
    forall u | u in Award(users, c.userId)
      ensures Award(users, c.userId)[u].points == 10 * |CompletionsOf(s + [c], u)|
    {
      CompletionsOfPush(s, c, u);
    }
  }

  /** Resetting a user and deleting that user's completions keeps the
      ledger balanced. */
  lemma LedgerAfterReset(users: map<UserId, UserDoc>, s: seq<Completion>, id: UserId)
    requires LedgerBalanced(users, s)
    ensures LedgerBalanced(if id in users then users[id := UserDoc(0, [])] else users, WithoutUser(s, id))
  {
    var users' := if id in users then users[id := UserDoc(0, [])] else users;
    forall u | u in users' ensures users'[u].points == 10 * |CompletionsOf(WithoutUser(s, id), u)| {
      WithoutUserEffect(s, id, u);
    }
  }

  /** A store whose completions are unique is still so after appending a
      record whose key is new. */
  lemma UniquePush(s: seq<Completion>, c: Completion)
    requires Unique(s)
    requires !HasCompletion(s, c.userId, c.challengeId, c.date)
    ensures Unique(s + [c])
  {
  }

  /** Deleting one user's completions keeps the rest unique. */
  lemma {:induction false} UniqueWithoutUser(s: seq<Completion>, u: UserId)
    requires Unique(s)
    ensures Unique(WithoutUser(s, u))
  {
    if s != [] {
      var t := s[1..];
      assert Unique(t) by {
        forall i, j | 0 <= i < j < |t|
          ensures (t[i].userId, t[i].challengeId, t[i].date) != (t[j].userId, t[j].challengeId, t[j].date)
        {
          assert t[i] == s[i + 1] && t[j] == s[j + 1];
        }
      }
      UniqueWithoutUser(t, u);
      var w := WithoutUser(t, u);
      if s[0].userId != u {
        var r := [s[0]] + w;
        forall i, j | 0 <= i < j < |r|
          ensures (r[i].userId, r[i].challengeId, r[i].date) != (r[j].userId, r[j].challengeId, r[j].date)
        {
          if i == 0 {
            assert r[j] in t;
            var k :| 0 <= k < |t| && t[k] == r[j];
            assert s[k + 1] == r[j];
          } else {
            assert r[i] == w[i - 1] && r[j] == w[j - 1];
          }
        }
      }
    }
  }

  class Store {
    var users: map<UserId, UserDoc>
    var completions: seq<Completion>
    var participants: map<ChallengeId, nat>

    /** The store's invariant: one completion per (user, challenge, date),
        points equal to ten per owned completion, and joined challenge
        lists without repeats. */
    ghost predicate Valid()
      reads this
    {
      && Unique(completions)
      && LedgerBalanced(users, completions)
      && forall u :: u in users ==> NoDuplicates(users[u].challenges)
    }

    constructor ()
      ensures Valid()
      ensures users == map[] && completions == [] && participants == map[]
    {
      users, completions, participants := map[], [], map[];
    }

    /** The store effect of sign-up: a new user document takes the schema
        defaults, no points and no challenges. Its id is freshly generated,
        so no record refers to it yet. */
    method InsertUser(id: UserId)
      requires Valid()
      requires id !in users && CompletionsOf(completions, id) == []
      modifies this
      ensures Valid()
      ensures users == old(users)[id := UserDoc(0, [])]
      ensures completions == old(completions) && participants == old(participants)
    {
      users := users[id := UserDoc(0, [])];
    }

    /** The store effect of creating a challenge: a fresh id whose
        participant count takes the schema default 1. */
    method InsertChallenge(id: ChallengeId)
      requires Valid()
      requires id !in participants
      modifies this
      ensures Valid()
      ensures participants == old(participants)[id := 1]
      ensures users == old(users) && completions == old(completions)
    {
      participants := participants[id := 1];
    }

    /** `POST /api/completions`. A record with the same user, challenge and
        date is refused; a record without a photo fails validation; otherwise
        the record is saved and the user, if there is one, gains 10 points. */
    method CreateCompletion(userId: UserId, challengeId: ChallengeId, photo: string, date: Day)
      returns (r: Outcome<Error>)
      requires Valid()
      modifies this
      ensures Valid()
      ensures participants == old(participants)
      ensures old(HasCompletion(completions, userId, challengeId, date)) ==>
        r == Fail(AlreadyCompleted) && users == old(users) && completions == old(completions)
      ensures !old(HasCompletion(completions, userId, challengeId, date)) && photo == [] ==>
        r == Fail(PhotoRequired) && users == old(users) && completions == old(completions)
      ensures !old(HasCompletion(completions, userId, challengeId, date)) && photo != [] ==>
        && r == Pass
        && completions == old(completions) + [Completion(userId, challengeId, date, photo)]
        && users == Award(old(users), userId)
    {
      if HasCompletion(completions, userId, challengeId, date) {
        return Fail(AlreadyCompleted);
      }
      if photo == [] {
        return Fail(PhotoRequired);
      }
      var c := Completion(userId, challengeId, date, photo);
      UniquePush(completions, c);
      LedgerAfterCreate(users, completions, c);
      completions := completions + [c];
      if userId in users {
        users := users[userId := users[userId].(points := users[userId].points + 10)];
      }
      r := Pass;
    }

    /** `POST /api/users/:id/reset`: the user, if there is one, is back to
        no points and no challenges, and every completion of that id is
        deleted. Returns the updated user document, null when missing. */
    method ResetProgress(id: UserId) returns (r: Option<UserDoc>)
      requires Valid()
      modifies this
      ensures Valid()
      ensures participants == old(participants)
      ensures users == if id in old(users) then old(users)[id := UserDoc(0, [])] else old(users)
      ensures completions == WithoutUser(old(completions), id)
      ensures r == if id in old(users) then Some(UserDoc(0, [])) else None
    {
      UniqueWithoutUser(completions, id);
      LedgerAfterReset(users, completions, id);
      if id in users {
        users := users[id := UserDoc(0, [])];
        r := Some(UserDoc(0, []));
      } else {
        r := None;
      }
      completions := WithoutUser(completions, id);
    }

    /** `POST /api/challenges/:id/join`: fails for a missing challenge;
        otherwise the id is added set-wise to the caller's challenges and
        the participant count goes up by one, even on a repeated join. */
    method JoinChallenge(userId: UserId, challengeId: ChallengeId) returns (r: Outcome<Error>)
      requires Valid()
      modifies this
      ensures Valid()
      ensures completions == old(completions)
      ensures challengeId !in old(participants) ==>
        r == Fail(ChallengeNotFound) && users == old(users) && participants == old(participants)
      ensures challengeId in old(participants) ==>
        && r == Pass
        && participants == old(participants)[challengeId := old(participants)[challengeId] + 1]
        && users == if userId in old(users)
                    then old(users)[userId := old(users)[userId].(challenges := AddToSet(old(users)[userId].challenges, challengeId))]
                    else old(users)
    {
      if challengeId !in participants {
        return Fail(ChallengeNotFound);
      }
      if userId in users {
        users := users[userId := users[userId].(challenges := AddToSet(users[userId].challenges, challengeId))];
      }
      participants := participants[challengeId := participants[challengeId] + 1];
      r := Pass;
    }

    /** `GET /api/statistics/:userId`: totals, the streak walk over the
        user's completion dates, and the completion rate. A missing user
        makes the route fail. */
    method GetStatistics(userId: UserId, today: Day) returns (r: Result<Statistics, Error>)
      ensures userId !in users <==> r == Err(UserNotFound)
      ensures r.Ok? ==>
        var mine := CompletionsOf(completions, userId);
        var days := DaysOf(Dates(mine));
        && r.value.totalPoints == users[userId].points
        && r.value.totalCompletions == |mine|
        && r.value.totalChallenges == |users[userId].challenges|
        && r.value.currentStreak == CurrentStreak(days, today)
        && r.value.longestStreak == Longest(days)
        && r.value.completionRate == CompletionRate(|mine|, |users[userId].challenges|)
      ensures r.Ok? && Valid() ==> r.value.totalPoints == 10 * r.value.totalCompletions
    {
      var mine := CompletionsOf(completions, userId);
      var currentStreak, longestStreak := StreakWalk(Dates(mine), today);
      if userId !in users {
        return Err(UserNotFound);
      }
      var user := users[userId];
      r := Ok(Statistics(
        user.points,
        |mine|,
        |user.challenges|,
        currentStreak,
        longestStreak,
        CompletionRate(|mine|, |user.challenges|)));
    }
  }
}
