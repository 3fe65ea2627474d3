/** What the single-page dashboard derives from its in-memory collections:
    today's completed and pending counts, the seven-day consistency series,
    whether a calendar day is completed, the completion rate, and the
    reward arithmetic on the user's points. */
module Dashboard {
  import opened Common
  import Backend

  /** `completions.filter(c => c.userId === currentUser?.id)`: every
      completion has a user id, so nobody's when no one is logged in. */
  function OwnCompletions(s: seq<Completion>, user: Option<UserId>): seq<Completion>
  {
    if user.Some? then CompletionsOf(s, user.value) else []
  }

  /** The number of the user's completions dated `d`. */
  function DayCount(s: seq<Completion>, user: Option<UserId>, d: Day): nat
  {
    if user.Some? then |CompletionsOn(s, user.value, d)| else 0
  }

  lemma {:induction false} OnIsBetween(s: seq<Completion>, u: UserId, d: Day)
    ensures CompletionsOn(s, u, d) == CompletionsBetween(s, u, d, d + 1)
  {
    if s != [] { OnIsBetween(s[1..], u, d); }
  }

  /** A window of days holds no more of a user's completions than the user has. */
  lemma {:induction false} BetweenAtMostAll(s: seq<Completion>, u: UserId, lo: Day, hi: Day)
    ensures |CompletionsBetween(s, u, lo, hi)| <= |CompletionsOf(s, u)|
  {
    if s != [] { BetweenAtMostAll(s[1..], u, lo, hi); }
  }

  /** Growing a window by its next day adds that day's completions. */
  lemma {:induction false} BetweenSplit(s: seq<Completion>, u: UserId, lo: Day, hi: Day)
    requires lo <= hi
    ensures |CompletionsBetween(s, u, lo, hi + 1)| == |CompletionsBetween(s, u, lo, hi)| + |CompletionsOn(s, u, hi)|
  {
    if s != [] { BetweenSplit(s[1..], u, lo, hi); }
  }

  /** A day's count never exceeds the user's completions. */
  lemma DayCountAtMostOwn(s: seq<Completion>, user: Option<UserId>, d: Day)
    ensures DayCount(s, user, d) <= |OwnCompletions(s, user)|
  {
    if user.Some? {
      OnIsBetween(s, user.value, d);
      BetweenAtMostAll(s, user.value, d, d + 1);
    }
  }

  /** `getChallengeCompletionStats()`. */
  datatype CompletionStats = CompletionStats(completed: nat, pending: int, total: nat)

  function ChallengeCompletionStats(s: seq<Completion>, user: Option<UserId>,
                                    userChallenges: seq<ChallengeId>, today: Day): (r: CompletionStats)
    ensures r.completed + r.pending == r.total == |userChallenges|
    ensures r.completed <= |OwnCompletions(s, user)|
    ensures r.completed == DayCount(s, user, today)
  {
    var completed := DayCount(s, user, today);
    DayCountAtMostOwn(s, user, today);
    CompletionStats(completed, |userChallenges| - completed, |userChallenges|)
  }

  /** `pending` is not clamped: two completions today with one joined
      challenge leave -1 pending. */
  lemma PendingCanBeNegative(u: UserId, ch: ChallengeId, today: Day)
    ensures ChallengeCompletionStats(
              [Completion(u, ch, today, "a"), Completion(u, ch, today, "b")], Some(u), [ch], today).pending == -1
  {
  }

  lemma {:induction false} CompletionsOnPush(s: seq<Completion>, c: Completion, u: UserId, d: Day)
    ensures CompletionsOn(s + [c], u, d) == CompletionsOn(s, u, d) + (if c.userId == u && c.date == d then [c] else [])
  {
    if s == [] {
      assert [] + [c] == [c];
    } else {
      assert (s + [c])[1..] == s[1..] + [c];
      CompletionsOnPush(s[1..], c, u, d);
    }
  }

  /** Each completion made today raises today's completed count by one, and
      lowers pending by one, even for a challenge already completed today:
      `completeChallenge` itself does not refuse a repeat, though the home
      page hides its button once the challenge is done today. */
  lemma CompletingToday(s: seq<Completion>, u: UserId, ch: ChallengeId, photo: string,
                        userChallenges: seq<ChallengeId>, today: Day)
    ensures var before := ChallengeCompletionStats(s, Some(u), userChallenges, today);
            var after := ChallengeCompletionStats(s + [Completion(u, ch, today, photo)], Some(u), userChallenges, today);
            after.completed == before.completed + 1 && after.pending == before.pending - 1 && after.total == before.total
  {
    CompletionsOnPush(s, Completion(u, ch, today, photo), u, today);
  }

  /** `getConsistencyData()`: for i from 6 down to 0, the count of the
      user's completions dated i days before today. */
  method ConsistencyData(s: seq<Completion>, user: Option<UserId>, today: Day) returns (last7Days: seq<nat>)
    ensures |last7Days| == 7
    ensures forall j :: 0 <= j < 7 ==> last7Days[j] == DayCount(s, user, today - 6 + j)
  {
    last7Days := [];
    var i := 6;
    while i >= 0
      invariant -1 <= i <= 6
      invariant |last7Days| == 6 - i
      invariant forall j :: 0 <= j < |last7Days| ==> last7Days[j] == DayCount(s, user, today - 6 + j)
    {
      var date := today - i;
      var count := if user.Some? then |CompletionsOn(s, user.value, date)| else 0;
      last7Days := last7Days + [count];
      i := i - 1;
    }
  }

  function Sum(xs: seq<nat>): nat
  {
    if xs == [] then 0 else Sum(xs[..|xs| - 1]) + xs[|xs| - 1]
  }

  lemma {:induction false} EmptyWindow(s: seq<Completion>, u: UserId, lo: Day)
    ensures CompletionsBetween(s, u, lo, lo) == []
  {
    if s != [] { EmptyWindow(s[1..], u, lo); }
  }

  lemma {:induction false} SumOfZeros(xs: seq<nat>)
    requires forall j :: 0 <= j < |xs| ==> xs[j] == 0
    ensures Sum(xs) == 0
  {
    if xs != [] { SumOfZeros(xs[..|xs| - 1]); }
  }

  /** The first k entries of the series add up to the user's completions in
      the first k days of the window. */
  lemma {:induction false} WindowSum(s: seq<Completion>, u: UserId, lo: Day, series: seq<nat>, k: nat)
    requires k <= |series|
    requires forall j :: 0 <= j < |series| ==> series[j] == |CompletionsOn(s, u, lo + j)|
    ensures Sum(series[..k]) == |CompletionsBetween(s, u, lo, lo + k)|
  {
    if k == 0 {
      EmptyWindow(s, u, lo);
    } else {
      WindowSum(s, u, lo, series, k - 1);
      assert series[..k][..k - 1] == series[..k - 1];
      BetweenSplit(s, u, lo, lo + k - 1);
    }
  }

  /** The seven counts together never exceed the user's completions. */
  lemma ConsistencyTotal(s: seq<Completion>, user: Option<UserId>, today: Day, series: seq<nat>)
    requires |series| == 7
    requires forall j :: 0 <= j < 7 ==> series[j] == DayCount(s, user, today - 6 + j)
    ensures Sum(series) <= |OwnCompletions(s, user)|
  {
    assert series[..7] == series;
    if user.Some? {
      WindowSum(s, user.value, today - 6, series, 7);
      BetweenAtMostAll(s, user.value, today - 6, today + 1);
    } else {
      SumOfZeros(series);
    }
  }

  /** `isDateCompleted(date)`. */
  predicate IsDateCompleted(s: seq<Completion>, user: Option<UserId>, d: Day)
    ensures IsDateCompleted(s, user, d) ==> user.Some?
    ensures IsDateCompleted(s, user, d) <==> exists c :: c in OwnCompletions(s, user) && c.date == d
  {
    exists i :: 0 <= i < |s| && user == Some(s[i].userId) && s[i].date == d
  }

  /** A calendar day is marked exactly when its consistency count is positive. */
  lemma DateCompletedIffCounted(s: seq<Completion>, user: Option<UserId>, d: Day)
    ensures IsDateCompleted(s, user, d) <==> DayCount(s, user, d) > 0
  {
    if IsDateCompleted(s, user, d) {
      var i :| 0 <= i < |s| && user == Some(s[i].userId) && s[i].date == d;
      assert s[i] in CompletionsOn(s, user.value, d);
    }
    if DayCount(s, user, d) > 0 {
      var c := CompletionsOn(s, user.value, d)[0];
      assert c in CompletionsOn(s, user.value, d);
      var i :| 0 <= i < |s| && s[i] == c;
    }
  }

  /** The rate on the statistics page: completions per joined challenge as
      a percentage rounded half up, counting at least one challenge. */
  function DashboardCompletionRate(s: seq<Completion>, u: UserId, userChallenges: seq<ChallengeId>): (r: nat)
    ensures var c, n := |CompletionsOf(s, u)|, if |userChallenges| > 1 then |userChallenges| else 1;
            2 * n * r <= 200 * c + n < 2 * n * (r + 1)
  {
    RoundedPercent(|CompletionsOf(s, u)|, if |userChallenges| > 1 then |userChallenges| else 1)
  }

  /** The dashboard shows 0% without completions; it agrees with the server
      once a challenge is joined, and shows 100 per completion before that,
      where the server reports 0. */
  lemma DashboardRateVersusServer(s: seq<Completion>, u: UserId, userChallenges: seq<ChallengeId>)
    ensures CompletionsOf(s, u) == [] ==> DashboardCompletionRate(s, u, userChallenges) == 0
    ensures |userChallenges| > 0 ==>
      DashboardCompletionRate(s, u, userChallenges) == Backend.CompletionRate(|CompletionsOf(s, u)|, |userChallenges|)
    ensures |userChallenges| == 0 ==>
      DashboardCompletionRate(s, u, userChallenges) == 100 * |CompletionsOf(s, u)|
      && Backend.CompletionRate(|CompletionsOf(s, u)|, 0) == 0
  {
  }

  /** `Math.floor(points / 10)`: the rupees the points are worth. */
  function Redeemable(points: nat): (r: nat)
    ensures 10 * r <= points < 10 * r + 10
  {
    points / 10
  }

  /** `100 - points % 100`: the points still needed to reach the next
      multiple of 100 (a full 100 right at a multiple). */
  function PointsToNext(points: nat): (r: nat)
    ensures 1 <= r <= 100
    ensures (points + r) % 100 == 0
  {
    100 - points % 100
  }

  /** The redeem button is enabled from 100 points on, which is exactly
      when at least ₹10 is redeemable. */
  predicate CanRedeem(points: nat)
    ensures CanRedeem(points) <==> Redeemable(points) >= 10
  {
    points >= 100
  }

  /** Below the threshold the button's "Need N more points" is exactly the
      distance to 100 points. */
  lemma RedeemThreshold(points: nat)
    ensures !CanRedeem(points) ==> points + PointsToNext(points) == 100
  {
  }
}
