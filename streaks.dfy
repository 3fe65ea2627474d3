/** The streak computation of the statistics route: the distinct completion
    dates, sorted, are walked once, tracking the run of consecutive days.
    The walk is specified against the SET of completion days, so repeated
    dates (several challenges done on one day) count once by construction. */
module Streaks {

  predicate StrictlyIncreasing(s: seq<int>)
  {
    forall i, j :: 0 <= i < j < |s| ==> s[i] < s[j]
  }

  /** The set of days that occur in a list of dates. */
  function DaysOf(dates: seq<int>): set<int>
  {
    set y | y in dates
  }

  /** Inserts a day into a strictly increasing list, dropping it if present. */
  function InsertSorted(s: seq<int>, x: int): (r: seq<int>)
    requires StrictlyIncreasing(s)
    ensures StrictlyIncreasing(r)
    ensures forall y :: y in r <==> y in s || y == x
  {
    if s == [] then [x]
    else if x < s[0] then [x] + s
    else if x == s[0] then s
    else
      var t := InsertSorted(s[1..], x);
      assert forall k :: 0 <= k < |t| ==> t[k] in s[1..] || t[k] == x;
      assert forall k :: 0 <= k < |t| ==> s[0] < t[k];
      [s[0]] + t
  }

  /** `[...new Set(dates)].sort()`: the distinct days, ascending. (Dates are
      'YYYY-MM-DD' strings, whose lexicographic order is the calendar order.) */
  function DistinctSorted(dates: seq<int>): (r: seq<int>)
    ensures StrictlyIncreasing(r)
    ensures forall y :: y in r <==> y in dates
  {
    if dates == [] then []
    else InsertSorted(DistinctSorted(dates[..|dates| - 1]), dates[|dates| - 1])
  }

  /** Inserting a day that is already listed changes nothing. */
  lemma {:induction false} InsertPresent(s: seq<int>, x: int)
    requires StrictlyIncreasing(s) && x in s
    ensures InsertSorted(s, x) == s
  {
    if x != s[0] {
      assert x in s[1..];
      InsertPresent(s[1..], x);
      assert [s[0]] + s[1..] == s;
    }
  }

  /** A repeated completion day does not change the walked list. */
  lemma DuplicateDayCountsOnce(dates: seq<int>, x: int)
    requires x in dates
    ensures DistinctSorted(dates + [x]) == DistinctSorted(dates)
  {
    assert (dates + [x])[..|dates|] == dates;
    InsertPresent(DistinctSorted(dates), x);
  }

  /** The number of consecutive days ending on `x` that are all in `D`. */
  function Run(D: set<int>, x: int): nat
    decreases |D|
  {
    if x in D then 1 + Run(D - {x}, x - 1) else 0
  }

  /** Run(D, x) is k exactly when the days x-k+1 .. x are present and x-k
      is not. */
  lemma {:induction false} RunSpan(D: set<int>, x: int)
    decreases |D|
    ensures forall y :: x - Run(D, x) < y <= x ==> y in D
    ensures x - Run(D, x) !in D
  {
    if x in D {
      RunSpan(D - {x}, x - 1);
      var m := Run(D - {x}, x - 1);
      forall y | x - 1 - m < y <= x ensures y in D {
        if y < x { assert y in D - {x}; }
      }
      assert x - 1 - m !in D - {x};
    }
  }

  /** A run ending on `x` is at least as long as any block of present days
      ending on `x`. */
  lemma RunCovers(D: set<int>, x: int, k: nat)
    requires forall y :: x - k < y <= x ==> y in D
    ensures k <= Run(D, x)
  {
    RunSpan(D, x);
  }

  /** Removing a later day does not change the run ending on `y`. */
  lemma RunIgnoresLater(D: set<int>, y: int, z: int)
    requires y < z
    ensures Run(D - {z}, y) == Run(D, y)
  {
    var m, n := Run(D - {z}, y), Run(D, y);
    RunSpan(D - {z}, y);
    RunSpan(D, y);
    forall w | y - m < w <= y ensures w in D { assert w in D - {z}; }
    RunCovers(D, y, m);
    forall w | y - n < w <= y ensures w in D - {z} { }
    RunCovers(D - {z}, y, n);
  }

  lemma RunAtMostSize(D: set<int>, x: int)
    decreases |D|
    ensures Run(D, x) <= |D|
  {
  }

  lemma RunOfMonotonic(D: set<int>, E: set<int>, x: int)
    requires D <= E
    ensures Run(D, x) <= Run(E, x)
  {
  }

  predicate IsFirst(D: set<int>, x: int)
  {
    x in D && forall y :: y in D ==> x <= y
  }

  /** The walk reaches day `x` through its first-or-consecutive branch: `x`
      is the earliest day, or the day before it is present too. */
  predicate Reachable(D: set<int>, x: int)
  {
    x in D && (x - 1 in D || IsFirst(D, x))
  }

  /** The current streak as the route computes it: the run ending today, or
      else yesterday, provided that day is reached through the consecutive
      branch. A day that follows a gap is never assigned. */
  function CurrentStreak(D: set<int>, today: int): nat
  {
    if Reachable(D, today) then Run(D, today)
    else if Reachable(D, today - 1) then Run(D, today - 1)
    else 0
  }

  function LongestUpTo(D: set<int>, k: nat): nat
  {
    if k == 0 then 0
    else if exists x :: x in D && Run(D, x) >= k then k
    else LongestUpTo(D, k - 1)
  }

  /** The length of the longest run of consecutive days in `D`. */
  function Longest(D: set<int>): nat
  {
    LongestUpTo(D, |D|)
  }

  lemma {:induction false} LongestUpToIsMax(D: set<int>, k: nat)
    requires forall x :: x in D ==> Run(D, x) <= k
    ensures forall x :: x in D ==> Run(D, x) <= LongestUpTo(D, k)
    ensures LongestUpTo(D, k) > 0 ==> exists x :: x in D && Run(D, x) == LongestUpTo(D, k)
  {
    if k == 0 {
    } else if exists x :: x in D && Run(D, x) >= k {
      var x :| x in D && Run(D, x) >= k;
      assert Run(D, x) == LongestUpTo(D, k);
    } else {
      forall x | x in D ensures Run(D, x) <= k - 1 { }
      LongestUpToIsMax(D, k - 1);
    }
  }

  /** Longest(D) bounds every run in D and is the length of one of them. */
  lemma LongestIsMax(D: set<int>)
    ensures forall x :: x in D ==> Run(D, x) <= Longest(D)
    ensures forall x :: x in D ==> Longest(D) >= 1
    ensures Longest(D) > 0 ==> exists x :: x in D && Run(D, x) == Longest(D)
    ensures D == {} ==> Longest(D) == 0
  {
    forall x | x in D ensures Run(D, x) <= |D| { RunAtMostSize(D, x); }
    LongestUpToIsMax(D, |D|);
  }

  /** A bound on every run that is reached by some run is Longest(D). */
  lemma LongestUnique(D: set<int>, m: nat)
    requires forall x :: x in D ==> Run(D, x) <= m
    requires D != {} ==> exists x :: x in D && Run(D, x) == m
    requires D == {} ==> m == 0
    ensures m == Longest(D)
  {
    LongestIsMax(D);
    if D != {} {
      var x :| x in D && Run(D, x) == m;
      var y :| y in D && Run(D, y) == Longest(D);
    } else {
      assert D == {};
    }
  }

  /** A day that the walk reaches after a gap, or that it reaches first,
      has no present day just before it. */
  lemma NoDayBefore(d: seq<int>, D: set<int>, i: int)
    requires StrictlyIncreasing(d)
    requires forall y :: y in D <==> y in d
    requires 0 <= i < |d|
    requires i == 0 || d[i] - d[i - 1] != 1
    ensures d[i] - 1 !in D
  {
  }

  /** How one step of the walk sees day d[i]: the consecutive test holds
      exactly when the day is reachable, and the running length becomes the
      run ending on that day. */
  lemma StepFacts(d: seq<int>, D: set<int>, i: int)
    requires StrictlyIncreasing(d)
    requires forall y :: y in D <==> y in d
    requires 0 <= i < |d|
    ensures (i == 0 || d[i] - d[i - 1] == 1) <==> Reachable(D, d[i])
    ensures Run(D, d[i]) == if i > 0 && d[i] - d[i - 1] == 1 then Run(D, d[i - 1]) + 1 else 1
  {
    var x := d[i];
    assert x in D;
    if i > 0 {
      assert d[0] in D && d[0] < x;
    } else {
      forall y | y in D ensures x <= y {
        var j :| 0 <= j < |d| && d[j] == y;
        assert d[0] <= d[j];
      }
    }
    if i > 0 && x - d[i - 1] == 1 {
      assert d[i - 1] in D;
      RunIgnoresLater(D, x - 1, x);
    } else {
      NoDayBefore(d, D, i);
      assert x - 1 !in D - {x};
    }
  }

  /** The current streak after the walk has seen the days d[..i]. */
  ghost function CurrentAfter(d: seq<int>, D: set<int>, i: int, today: int): nat
    requires 0 <= i <= |d|
  {
    if today in d[..i] && Reachable(D, today) then Run(D, today)
    else if today - 1 in d[..i] && Reachable(D, today - 1) then Run(D, today - 1)
    else 0
  }

  /** Seeing d[i] assigns the current streak exactly when d[i] is today or
      yesterday and is reached through the consecutive branch. */
  lemma CurrentStep(d: seq<int>, D: set<int>, i: int, today: int)
    requires StrictlyIncreasing(d)
    requires forall y :: y in D <==> y in d
    requires 0 <= i < |d|
    ensures CurrentAfter(d, D, i + 1, today) ==
      if (i == 0 || d[i] - d[i - 1] == 1) && (d[i] == today || d[i] == today - 1) then Run(D, d[i])
      else CurrentAfter(d, D, i, today)
  {
    StepFacts(d, D, i);
    assert d[..i + 1] == d[..i] + [d[i]];
    assert forall y :: y in d[..i] ==> y < d[i];
    if today - 1 in D && today in D {
      var j :| 0 <= j < |d| && d[j] == today - 1;
      var k :| 0 <= k < |d| && d[k] == today;
      assert j < k;
    }
  }

  lemma CurrentAfterAll(d: seq<int>, D: set<int>, today: int)
    requires forall y :: y in D <==> y in d
    ensures CurrentAfter(d, D, |d|, today) == CurrentStreak(D, today)
  {
  }

  /** The live streak after the walk has seen the days d[..i]. */
  ghost function LiveAfter(d: seq<int>, D: set<int>, i: int, today: int): nat
    requires 0 <= i <= |d|
  {
    if today in d[..i] then Run(D, today)
    else if today - 1 in d[..i] then Run(D, today - 1)
    else 0
  }

  lemma LiveAfterAll(d: seq<int>, D: set<int>, today: int)
    requires forall y :: y in D <==> y in d
    ensures LiveAfter(d, D, |d|, today) == LiveStreak(D, today)
  {
  }

  lemma LiveStep(d: seq<int>, D: set<int>, i: int, today: int)
    requires StrictlyIncreasing(d)
    requires 0 <= i < |d|
    ensures LiveAfter(d, D, i + 1, today) ==
      if d[i] == today || d[i] == today - 1 then Run(D, d[i]) else LiveAfter(d, D, i, today)
  {
  }

  /** The literal `for` loop of the statistics route. */
  method StreakWalk(dates: seq<int>, today: int) returns (currentStreak: nat, longestStreak: nat)
    ensures currentStreak == CurrentStreak(DaysOf(dates), today)
    ensures longestStreak == Longest(DaysOf(dates))
  {
    ghost var D := DaysOf(dates);
    var d := DistinctSorted(dates);
    currentStreak, longestStreak := 0, 0;
    var tempStreak := 0;
    for i := 0 to |d|
      invariant tempStreak == if i == 0 then 0 else Run(D, d[i - 1])
      invariant forall k :: 0 <= k < i ==> Run(D, d[k]) <= longestStreak
      invariant i == 0 ==> longestStreak == 0
      invariant i > 0 ==> exists k :: 0 <= k < i && Run(D, d[k]) == longestStreak
      invariant currentStreak == CurrentAfter(d, D, i, today)
    {
      StepFacts(d, D, i);
      CurrentStep(d, D, i, today);
      if i == 0 || d[i] - d[i - 1] == 1 {
        tempStreak := tempStreak + 1;
        longestStreak := if longestStreak < tempStreak then tempStreak else longestStreak;
        if d[i] == today || d[i] == today - 1 {
          currentStreak := tempStreak;
        }
      } else {
        assert Run(D, d[0]) <= longestStreak;
        tempStreak := 1;
      }
    }
    CurrentAfterAll(d, D, today);
    LongestUnique(D, longestStreak);
  }

  /** The current streak once the gap branch also records today's or
      yesterday's run: the run ending today, or else yesterday. */
  function LiveStreak(D: set<int>, today: int): nat
  {
    if today in D then Run(D, today) else Run(D, today - 1)
  }

  /** The same walk with the current-streak update taken out of the
      consecutive branch, so that a day after a gap starts a live streak. */
  method StreakWalkFixed(dates: seq<int>, today: int) returns (currentStreak: nat, longestStreak: nat)
    ensures currentStreak == LiveStreak(DaysOf(dates), today)
    ensures longestStreak == Longest(DaysOf(dates))
  {
    ghost var D := DaysOf(dates);
    var d := DistinctSorted(dates);
    currentStreak, longestStreak := 0, 0;
    var tempStreak := 0;
    for i := 0 to |d|
      invariant tempStreak == if i == 0 then 0 else Run(D, d[i - 1])
      invariant forall k :: 0 <= k < i ==> Run(D, d[k]) <= longestStreak
      invariant i == 0 ==> longestStreak == 0
      invariant i > 0 ==> exists k :: 0 <= k < i && Run(D, d[k]) == longestStreak
      invariant currentStreak == LiveAfter(d, D, i, today)
    {
      StepFacts(d, D, i);
      LiveStep(d, D, i, today);
      if i == 0 || d[i] - d[i - 1] == 1 {
        tempStreak := tempStreak + 1;
        longestStreak := if longestStreak < tempStreak then tempStreak else longestStreak;
      } else {
        assert Run(D, d[0]) <= longestStreak;
        tempStreak := 1;
      }
      if d[i] == today || d[i] == today - 1 {
        currentStreak := tempStreak;
      }
    }
    LiveAfterAll(d, D, today);
    LongestUnique(D, longestStreak);
  }

  // Properties of the statistics route's streaks.

  /** No completions give no streaks; some completions give a longest streak
      of at least one day; the current streak never exceeds the longest and
      is alive only through a completion today or yesterday. */
  lemma StreakBounds(dates: seq<int>, today: int)
    ensures dates == [] ==> CurrentStreak(DaysOf(dates), today) == 0 && Longest(DaysOf(dates)) == 0
    ensures dates != [] ==> Longest(DaysOf(dates)) >= 1
    ensures CurrentStreak(DaysOf(dates), today) <= Longest(DaysOf(dates))
    ensures CurrentStreak(DaysOf(dates), today) > 0 ==> today in dates || today - 1 in dates
  {
    var D := DaysOf(dates);
    LongestIsMax(D);
    if dates != [] {
      assert dates[0] in D;
      assert Run(D, dates[0]) >= 1;
    } else {
      assert D == {};
    }
  }

  /** Adding completion days never shortens the longest streak. */
  lemma LongestMonotonic(D: set<int>, E: set<int>)
    requires D <= E
    ensures Longest(D) <= Longest(E)
  {
    LongestIsMax(D);
    LongestIsMax(E);
    if Longest(D) > 0 {
      var x :| x in D && Run(D, x) == Longest(D);
      RunOfMonotonic(D, E, x);
    }
  }

  /** When the completion days are exactly the k days ending today, both
      streaks are k. */
  lemma ConsecutiveEndingToday(D: set<int>, today: int, k: nat)
    requires k >= 1
    requires forall y :: y in D <==> today - k < y <= today
    ensures CurrentStreak(D, today) == k
    ensures Longest(D) == k
  {
    RunCovers(D, today, k);
    RunSpan(D, today);
    assert today - k !in D;
    if k == 1 {
      assert IsFirst(D, today);
    } else {
      assert today - 1 in D;
    }
    forall x | x in D ensures Run(D, x) <= k {
      RunSpan(D, x);
      assert x - Run(D, x) + 1 in D || Run(D, x) == 0;
    }
    LongestUnique(D, k);
  }

  /** Completions on days 1 and 2 seen from day 10: the streak is over but
      its length is kept. */
  lemma StaleStreak()
    ensures CurrentStreak({1, 2}, 10) == 0
    ensures Longest({1, 2}) == 2
  {
  }

  /** A completion today after a gap: the route reports no current streak,
      the corrected walk reports a streak of one day. */
  lemma GapBeforeToday(D: set<int>, today: int, earlier: int)
    requires today in D && today - 1 !in D
    requires earlier in D && earlier < today
    ensures CurrentStreak(D, today) == 0
    ensures LiveStreak(D, today) == 1
  {
    assert !IsFirst(D, today);
    assert Run(D - {today}, today - 1) == 0;
  }

  /** Completions on days 1 and 3 seen from day 3: the route reports a
      current streak of 0 where the corrected walk reports 1. */
  lemma GapThenToday()
    ensures CurrentStreak({1, 3}, 3) == 0
    ensures LiveStreak({1, 3}, 3) == 1
    ensures Longest({1, 3}) == 1
  {
  }

  /** A completion yesterday after a gap, with nothing today: the route
      reports no current streak, the corrected walk reports one day. */
  lemma GapBeforeYesterday(D: set<int>, today: int, earlier: int)
    requires today !in D && today - 1 in D && today - 2 !in D
    requires earlier in D && earlier < today - 1
    ensures CurrentStreak(D, today) == 0
    ensures LiveStreak(D, today) == 1
  {
    assert !IsFirst(D, today - 1);
    assert Run(D - {today - 1}, today - 2) == 0;
  }

  /** Both walks agree when the latest of today and yesterday that has a
      completion is reached without a gap; GapBeforeToday and
      GapBeforeYesterday show that they differ otherwise. */
  lemma FixedAgreesWithRoute(D: set<int>, today: int)
    requires today in D ==> Reachable(D, today)
    requires today !in D && today - 1 in D ==> Reachable(D, today - 1)
    ensures CurrentStreak(D, today) == LiveStreak(D, today)
  {
  }

  /** The corrected current streak is alive exactly when there is a
      completion today or yesterday, and never exceeds the longest. */
  lemma LiveStreakBounds(D: set<int>, today: int)
    ensures LiveStreak(D, today) > 0 <==> today in D || today - 1 in D
    ensures LiveStreak(D, today) <= Longest(D)
  {
    LongestIsMax(D);
  }
}
