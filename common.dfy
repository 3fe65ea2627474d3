/** Entities shared by the server and the dashboard: identifiers, the
    completion record, per-user filters over the completion list, and the
    rounding that both sides apply to the completion rate. */
module Common {

  type UserId = string
  type ChallengeId = string

  /** A calendar day, counted in whole days. A 'YYYY-MM-DD' string parses to
      UTC midnight, so two dates 86400000 ms apart are consecutive days. */
  type Day = int

  datatype Option<T> = None | Some(value: T)

  /** The outcome of a store operation that returns nothing on success. */
  datatype Outcome<E> = Pass | Fail(error: E)

  /** The outcome of an operation that returns a value on success. */
  datatype Result<T, E> = Ok(value: T) | Err(error: E)

  /** One completion: a user did a challenge on a day, with a photo
      (a data URL; the empty string stands for a missing photo). */
  datatype Completion = Completion(userId: UserId, challengeId: ChallengeId, date: Day, photo: string)

  /** The completions of user `u`, in store order. */
  function CompletionsOf(s: seq<Completion>, u: UserId): (r: seq<Completion>)
    ensures forall c :: c in r <==> c in s && c.userId == u
    ensures |r| <= |s|
  {
    if s == [] then []
    else (if s[0].userId == u then [s[0]] else []) + CompletionsOf(s[1..], u)
  }

  /** The completions of everybody but `u`, in store order. */
  function WithoutUser(s: seq<Completion>, u: UserId): (r: seq<Completion>)
    ensures forall c :: c in r <==> c in s && c.userId != u
  {
    if s == [] then []
    else (if s[0].userId != u then [s[0]] else []) + WithoutUser(s[1..], u)
  }

  /** Dropping `u`'s records leaves `u` with none and every other user with
      exactly the records, in the same order, that they had. */
  lemma {:induction false} WithoutUserEffect(s: seq<Completion>, u: UserId, v: UserId)
    ensures CompletionsOf(WithoutUser(s, u), v) == if v == u then [] else CompletionsOf(s, v)
  {
    if s != [] {
      var head := if s[0].userId != u then [s[0]] else [];
      WithoutUserEffect(s[1..], u, v);
      CompletionsOfAppend(head, WithoutUser(s[1..], u), v);
    }
  }

  lemma {:induction false} CompletionsOfAppend(a: seq<Completion>, b: seq<Completion>, u: UserId)
    ensures CompletionsOf(a + b, u) == CompletionsOf(a, u) + CompletionsOf(b, u)
  {
    if a == [] {
      assert a + b == b;
    } else {
      assert (a + b)[1..] == a[1..] + b;
      CompletionsOfAppend(a[1..], b, u);
    }
  }

  /** Appending one record adds it to its own user's list and leaves every
      other user's list as it was. */
  lemma CompletionsOfPush(s: seq<Completion>, c: Completion, u: UserId)
    ensures CompletionsOf(s + [c], u) == CompletionsOf(s, u) + (if c.userId == u then [c] else [])
  {
    CompletionsOfAppend(s, [c], u);
  }

  /** Whether user `u` has a completion of challenge `ch` dated `d`
      (the server's duplicate query). */
  predicate HasCompletion(s: seq<Completion>, u: UserId, ch: ChallengeId, d: Day)
    ensures HasCompletion(s, u, ch, d) <==> exists c :: c in CompletionsOn(s, u, d) && c.challengeId == ch
  {
    exists i :: 0 <= i < |s| && s[i].userId == u && s[i].challengeId == ch && s[i].date == d
  }

  /** No two records share (user, challenge, date). */
  predicate Unique(s: seq<Completion>)
  {
    forall i, j :: 0 <= i < j < |s| ==>
      (s[i].userId, s[i].challengeId, s[i].date) != (s[j].userId, s[j].challengeId, s[j].date)
  }

  /** The completions of user `u` dated `d`. */
  function CompletionsOn(s: seq<Completion>, u: UserId, d: Day): (r: seq<Completion>)
    ensures forall c :: c in r <==> c in s && c.userId == u && c.date == d
    ensures |r| <= |s|
  {
    if s == [] then []
    else (if s[0].userId == u && s[0].date == d then [s[0]] else []) + CompletionsOn(s[1..], u, d)
  }

  /** The completions of user `u` dated in [lo, hi). */
  function CompletionsBetween(s: seq<Completion>, u: UserId, lo: Day, hi: Day): (r: seq<Completion>)
    ensures forall c :: c in r <==> c in s && c.userId == u && lo <= c.date < hi
  {
    if s == [] then []
    else (if s[0].userId == u && lo <= s[0].date < hi then [s[0]] else []) + CompletionsBetween(s[1..], u, lo, hi)
  }

  /** The dates of a list of completions, in order. */
  function Dates(s: seq<Completion>): (r: seq<Day>)
    ensures |r| == |s|
    ensures forall i :: 0 <= i < |s| ==> r[i] == s[i].date
  {
    if s == [] then [] else [s[0].date] + Dates(s[1..])
  }

  /** `Math.round(100 * c / n)` for n > 0, in exact arithmetic: JavaScript
      rounds halves upwards, so this is floor(100c/n + 1/2). */
  function RoundedPercent(c: nat, n: nat): (r: nat)
    requires n > 0
    ensures 2 * n * r <= 200 * c + n < 2 * n * (r + 1)
  {
    (200 * c + n) / (2 * n)
  }

  lemma MulMonotonic(a: nat, x: nat, y: nat)
    requires x <= y
    ensures a * x <= a * y
  {
  }

  /** The rate never exceeds 100 while completions do not outnumber
      challenges, reaches 100 once they match, and is 0 with no completions. */
  lemma RoundedPercentBounds(c: nat, n: nat)
    requires n > 0
    ensures c <= n ==> RoundedPercent(c, n) <= 100
    ensures n <= c ==> 100 <= RoundedPercent(c, n)
    ensures c == 0 ==> RoundedPercent(c, n) == 0
  {
    var r := RoundedPercent(c, n);
    if c <= n {
      MulMonotonic(200, c, n);
      if r > 100 { MulMonotonic(2 * n, 101, r); }
    }
    if n <= c {
      MulMonotonic(200, n, c);
      if r < 100 { MulMonotonic(2 * n, r + 1, 100); }
    }
  }
}
