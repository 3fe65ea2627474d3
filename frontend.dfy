/** The dashboard's state and its browser-storage copy. The component keeps
    users, challenges, completions and chat messages in React state and
    writes each collection back to local storage after changing it; here
    both are fields of `App`, the `stored*` fields standing for the
    storage entries. The logged-in user is a separate copy of a record in
    `users`, as in the component. */
module Frontend {
  import opened Common

  datatype User = User(id: UserId, name: string, points: nat, challenges: seq<ChallengeId>)
  datatype Challenge = Challenge(id: ChallengeId, participants: nat)
  datatype Message = Message(userId: UserId, userName: string, text: string)

  /** The three challenges written to an empty store on first load, with
      their participant counts. */
  const SampleChallenges: seq<Challenge> := [Challenge("c1", 42), Challenge("c2", 78), Challenge("c3", 156)]

  /** `users.map(u => u.id === id ? v : u)`. */
  function ReplaceUser(users: seq<User>, id: UserId, v: User): (r: seq<User>)
    ensures |r| == |users|
    ensures forall k :: 0 <= k < |users| ==> r[k] == if users[k].id == id then v else users[k]
  {
    seq(|users|, k requires 0 <= k < |users| => if users[k].id == id then v else users[k])
  }

  /** `users.map(u => u.id === id ? { ...u, challenges: cs } : u)`. */
  function SetChallenges(users: seq<User>, id: UserId, cs: seq<ChallengeId>): (r: seq<User>)
    ensures |r| == |users|
    ensures forall k :: 0 <= k < |users| ==> r[k] == if users[k].id == id then users[k].(challenges := cs) else users[k]
  {
    seq(|users|, k requires 0 <= k < |users| => if users[k].id == id then users[k].(challenges := cs) else users[k])
  }

  /** `challenges.map(c => c.id === id ? { ...c, participants: c.participants + 1 } : c)`. */
  function AddParticipant(challenges: seq<Challenge>, id: ChallengeId): (r: seq<Challenge>)
    ensures |r| == |challenges|
    ensures forall k :: 0 <= k < |challenges| ==>
      r[k] == if challenges[k].id == id then challenges[k].(participants := challenges[k].participants + 1) else challenges[k]
  {
    seq(|challenges|, k requires 0 <= k < |challenges| =>
      if challenges[k].id == id then challenges[k].(participants := challenges[k].participants + 1) else challenges[k])
  }

  /** `[...(chatMessages[id] || []), m]`. */
  function ThreadWith(chat: map<ChallengeId, seq<Message>>, id: ChallengeId, m: Message): (r: seq<Message>)
    ensures |r| >= 1 && r[|r| - 1] == m
    ensures r[..|r| - 1] == if id in chat then chat[id] else []
  {
    (if id in chat then chat[id] else []) + [m]
  }

  /** No two user records share an id (ids are generated from the clock). */
  predicate UniqueIds(users: seq<User>)
  {
    forall i, j :: 0 <= i < j < |users| ==> users[i].id != users[j].id
  }

  /** Every user record holds ten points per completion of its id. */
  ghost predicate Balanced(users: seq<User>, s: seq<Completion>)
  {
    forall k :: 0 <= k < |users| ==> users[k].points == 10 * |CompletionsOf(s, users[k].id)|
  }

  /** Every record with the logged-in id equals the logged-in copy. */
  ghost predicate Synced(users: seq<User>, current: Option<User>)
  {
    current.Some? ==> forall k :: 0 <= k < |users| && users[k].id == current.value.id ==> users[k] == current.value
  }

  /** Every record, and the logged-in copy, holds ten points per completion. */
  ghost predicate LedgerOf(users: seq<User>, s: seq<Completion>, current: Option<User>)
  {
    && Balanced(users, s)
    && (current.Some? ==> current.value.points == 10 * |CompletionsOf(s, current.value.id)|)
  }

  /** A completion of the logged-in user that earns its 10 points leaves the
      records in sync with the new copy, and keeps a balanced ledger
      balanced. */
  lemma LedgerAfterComplete(users: seq<User>, s: seq<Completion>, me: User, c: Completion)
    requires c.userId == me.id
    ensures Synced(ReplaceUser(users, me.id, me.(points := me.points + 10)), Some(me.(points := me.points + 10)))
    ensures LedgerOf(users, s, Some(me)) ==>
      LedgerOf(ReplaceUser(users, me.id, me.(points := me.points + 10)), s + [c], Some(me.(points := me.points + 10)))
  {
    var r := ReplaceUser(users, me.id, me.(points := me.points + 10));
    if LedgerOf(users, s, Some(me)) {
      forall k | 0 <= k < |r| ensures r[k].points == 10 * |CompletionsOf(s + [c], r[k].id)| {
        CompletionsOfPush(s, c, r[k].id);
      }
      CompletionsOfPush(s, c, me.id);
    }
  }

  /** Zeroing the logged-in user's records while dropping that user's
      completions leaves the records in sync and keeps the ledger balanced. */
  lemma LedgerAfterReset(users: seq<User>, s: seq<Completion>, reset: User)
    requires reset.points == 0
    ensures Synced(ReplaceUser(users, reset.id, reset), Some(reset))
    ensures Balanced(users, s) ==> LedgerOf(ReplaceUser(users, reset.id, reset), WithoutUser(s, reset.id), Some(reset))
  {
    var r := ReplaceUser(users, reset.id, reset);
    if Balanced(users, s) {
      forall k | 0 <= k < |r| ensures r[k].points == 10 * |CompletionsOf(WithoutUser(s, reset.id), r[k].id)| {
        WithoutUserEffect(s, reset.id, r[k].id);
      }
      WithoutUserEffect(s, reset.id, reset.id);
    }
  }

  class App {
    var users: seq<User>
    var challenges: seq<Challenge>
    var completions: seq<Completion>
    var chatMessages: map<ChallengeId, seq<Message>>
    var currentUser: Option<User>
    var userChallenges: seq<ChallengeId>

    var storedUsers: seq<User>
    var storedChallenges: seq<Challenge>
    var storedCompletions: seq<Completion>
    var storedChat: map<ChallengeId, seq<Message>>

    /** Every record of the logged-in user's id equals the logged-in copy. */
    ghost predicate InSync()
      reads this
    {
      Synced(users, currentUser)
    }

    /** The points of every record, and of the logged-in copy, are ten per
        completion of that user in the component's list. */
    ghost predicate Ledger()
      reads this
    {
      LedgerOf(users, completions, currentUser)
    }

    /** Local storage holds what the component holds. */
    ghost predicate Persisted()
      reads this
    {
      && storedUsers == users
      && storedChallenges == challenges
      && storedCompletions == completions
      && storedChat == chatMessages
    }

    /** Mounting the component: every collection is read from storage, an
        empty challenge list is first seeded with the sample challenges, and
        nobody is logged in. */
    constructor Mount(su: seq<User>, sc: seq<Challenge>, scomp: seq<Completion>, schat: map<ChallengeId, seq<Message>>)
      ensures storedChallenges == if sc == [] then SampleChallenges else sc
      ensures storedUsers == su && storedCompletions == scomp && storedChat == schat
      ensures Persisted() && InSync()
      ensures Balanced(su, scomp) ==> Ledger()
      ensures currentUser == None && userChallenges == []
    {
      var cs := if sc == [] then SampleChallenges else sc;
      users, challenges, completions, chatMessages := su, cs, scomp, schat;
      storedUsers, storedChallenges, storedCompletions, storedChat := su, cs, scomp, schat;
      currentUser, userChallenges := None, [];
    }

    /** The known-user branch of logging in: the matched record becomes the
        logged-in copy and its challenges the joined list. */
    method LogIn(k: nat)
      requires k < |users|
      modifies this
      ensures currentUser == Some(old(users[k])) && userChallenges == old(users[k].challenges)
      ensures UniqueIds(users) ==> InSync()
      ensures old(Balanced(users, completions)) ==> Ledger()
      ensures users == old(users) && challenges == old(challenges) && completions == old(completions)
      ensures chatMessages == old(chatMessages)
      ensures storedUsers == old(storedUsers) && storedChallenges == old(storedChallenges)
      ensures storedCompletions == old(storedCompletions) && storedChat == old(storedChat)
    {
      currentUser := Some(users[k]);
      userChallenges := users[k].challenges;
    }

    /** `updateUserChallenges(cs)`: the records of the logged-in id and the
        logged-in copy take the new challenge list; users are saved. */
    method UpdateUserChallenges(cs: seq<ChallengeId>)
      requires currentUser.Some?
      modifies this
      ensures users == SetChallenges(old(users), old(currentUser).value.id, cs)
      ensures currentUser == Some(old(currentUser).value.(challenges := cs))
      ensures storedUsers == users
      ensures old(InSync()) ==> InSync()
      ensures old(InSync() && Ledger()) ==> Ledger()
      ensures challenges == old(challenges) && completions == old(completions)
      ensures chatMessages == old(chatMessages) && userChallenges == old(userChallenges)
      ensures storedChallenges == old(storedChallenges) && storedCompletions == old(storedCompletions)
      ensures storedChat == old(storedChat)
    {
      var me := currentUser.value;
      users := SetChallenges(users, me.id, cs);
      storedUsers := users;
      currentUser := Some(me.(challenges := cs));
    }

    /** `joinChallenge(id)`: nothing happens for a challenge already joined;
        otherwise it is appended once to the joined list and to the user's
        records, and that challenge alone gains one participant. */
    method JoinChallenge(id: ChallengeId)
      requires id !in userChallenges ==> currentUser.Some?
      modifies this
      ensures id in old(userChallenges) ==>
        && users == old(users) && challenges == old(challenges) && currentUser == old(currentUser)
        && userChallenges == old(userChallenges)
      ensures id !in old(userChallenges) ==>
        && userChallenges == old(userChallenges) + [id]
        && users == SetChallenges(old(users), old(currentUser).value.id, old(userChallenges) + [id])
        && currentUser == Some(old(currentUser).value.(challenges := old(userChallenges) + [id]))
        && challenges == AddParticipant(old(challenges), id)
        && storedUsers == users && storedChallenges == challenges
      ensures id in old(userChallenges) ==> storedUsers == old(storedUsers) && storedChallenges == old(storedChallenges)
      ensures old(InSync()) ==> InSync()
      ensures old(InSync() && Ledger()) ==> Ledger()
      ensures old(Persisted()) ==> Persisted()
      ensures completions == old(completions) && chatMessages == old(chatMessages)
      ensures storedCompletions == old(storedCompletions) && storedChat == old(storedChat)
    {
      if id !in userChallenges {
        var updated := userChallenges + [id];
        userChallenges := updated;
        UpdateUserChallenges(updated);
        challenges := AddParticipant(challenges, id);
        storedChallenges := challenges;
      }
    }

    /** `completeChallenge(id, photo)`: without a photo nothing changes.
        With one, a completion of the logged-in user dated today is
        appended and saved, and the user's records gain 10 points. */
    method CompleteChallenge(id: ChallengeId, photo: string, today: Day)
      requires photo != [] ==> currentUser.Some?
      modifies this
      ensures photo == [] ==>
        && completions == old(completions) && users == old(users) && currentUser == old(currentUser)
        && storedCompletions == old(storedCompletions) && storedUsers == old(storedUsers)
      ensures photo != [] ==>
        var me := old(currentUser).value;
        && completions == old(completions) + [Completion(me.id, id, today, photo)]
        && currentUser == Some(me.(points := me.points + 10))
        && users == ReplaceUser(old(users), me.id, me.(points := me.points + 10))
        && storedCompletions == completions && storedUsers == users
      ensures old(InSync()) ==> InSync()
      ensures old(InSync() && Ledger()) ==> Ledger()
      ensures old(Persisted()) ==> Persisted()
      ensures challenges == old(challenges) && chatMessages == old(chatMessages)
      ensures userChallenges == old(userChallenges)
      ensures storedChallenges == old(storedChallenges) && storedChat == old(storedChat)
    {
      if photo == [] {
        return;
      }
      var me := currentUser.value;
      var completion := Completion(me.id, id, today, photo);
      var updatedCompletions := completions + [completion];
      var updatedUser := me.(points := me.points + 10);
      var updatedUsers := ReplaceUser(users, me.id, updatedUser);
      LedgerAfterComplete(users, completions, me, completion);
      completions, storedCompletions := updatedCompletions, updatedCompletions;
      currentUser := Some(updatedUser);
      users, storedUsers := updatedUsers, updatedUsers;
    }

    /** `sendChatMessage(id, text)`: one message from the logged-in user is
        appended to that challenge's thread; every other thread is kept. */
    method SendChatMessage(id: ChallengeId, text: string)
      requires currentUser.Some?
      modifies this
      ensures id in chatMessages
      ensures chatMessages[id] == (if id in old(chatMessages) then old(chatMessages)[id] else [])
                                  + [Message(old(currentUser).value.id, old(currentUser).value.name, text)]
      ensures forall t :: t != id ==> (t in chatMessages <==> t in old(chatMessages))
      ensures forall t :: t != id && t in chatMessages ==> chatMessages[t] == old(chatMessages)[t]
      ensures storedChat == chatMessages
      ensures old(InSync()) ==> InSync()
      ensures old(InSync() && Ledger()) ==> Ledger()
      ensures old(Persisted()) ==> Persisted()
      ensures users == old(users) && challenges == old(challenges) && completions == old(completions)
      ensures currentUser == old(currentUser) && userChallenges == old(userChallenges)
      ensures storedUsers == old(storedUsers) && storedChallenges == old(storedChallenges)
      ensures storedCompletions == old(storedCompletions)
    {
      var me := currentUser.value;
      var message := Message(me.id, me.name, text);
      chatMessages := chatMessages[id := ThreadWith(chatMessages, id, message)];
      storedChat := chatMessages;
    }

    /** `resetProgress()` after the user confirms: the logged-in user's
        records lose their points and challenges, and that user's
        completions leave the component's list. The users are saved; the
        completions are not. */
    method ResetProgress(confirmed: bool)
      requires confirmed ==> currentUser.Some?
      modifies this
      ensures !confirmed ==>
        && users == old(users) && completions == old(completions) && currentUser == old(currentUser)
        && userChallenges == old(userChallenges) && storedUsers == old(storedUsers)
      ensures confirmed ==>
        var reset := old(currentUser).value.(points := 0, challenges := []);
        && currentUser == Some(reset)
        && users == ReplaceUser(old(users), reset.id, reset)
        && storedUsers == users
        && userChallenges == []
        && completions == WithoutUser(old(completions), reset.id)
      ensures storedCompletions == old(storedCompletions)
      ensures old(InSync()) ==> InSync()
      ensures old(InSync() && Ledger()) ==> Ledger()
      ensures challenges == old(challenges) && chatMessages == old(chatMessages)
      ensures storedChallenges == old(storedChallenges) && storedChat == old(storedChat)
    {
      if confirmed {
        var reset := currentUser.value.(points := 0, challenges := []);
        LedgerAfterReset(users, completions, reset);
        currentUser := Some(reset);
        users := ReplaceUser(users, reset.id, reset);
        storedUsers := users;
        userChallenges := [];
        completions := WithoutUser(completions, reset.id);
      }
    }

    /** `resetProgress()` with the filtered completions saved as well. */
    method ResetProgressSaved(confirmed: bool)
      requires confirmed ==> currentUser.Some?
      modifies this
      ensures !confirmed ==>
        && users == old(users) && completions == old(completions) && currentUser == old(currentUser)
        && userChallenges == old(userChallenges) && storedUsers == old(storedUsers)
        && storedCompletions == old(storedCompletions)
      ensures confirmed ==>
        var reset := old(currentUser).value.(points := 0, challenges := []);
        && currentUser == Some(reset)
        && users == ReplaceUser(old(users), reset.id, reset)
        && storedUsers == users
        && userChallenges == []
        && completions == WithoutUser(old(completions), reset.id)
        && storedCompletions == completions
      ensures old(InSync()) ==> InSync()
      ensures old(InSync() && Ledger()) ==> Ledger()
      ensures old(Persisted()) ==> Persisted()
      ensures challenges == old(challenges) && chatMessages == old(chatMessages)
      ensures storedChallenges == old(storedChallenges) && storedChat == old(storedChat)
    {
      ResetProgress(confirmed);
      if confirmed {
        storedCompletions := completions;
      }
    }
  }

  /** A user completes a challenge, resets, and reloads the page: the
      completion is back, while the points stay at 0. */
  method ResetThenReload(me: User, ch: ChallengeId, photo: string, today: Day)
    returns (points: nat, restored: seq<Completion>)
    requires photo != []
    ensures points == 0
    ensures CompletionsOf(restored, me.id) == [Completion(me.id, ch, today, photo)]
  {
    var app := new App.Mount([me], [], [], map[]);
    app.LogIn(0);
    app.CompleteChallenge(ch, photo, today);
    app.ResetProgress(true);
    var reloaded := new App.Mount(app.storedUsers, app.storedChallenges, app.storedCompletions, app.storedChat);
    points := reloaded.storedUsers[0].points;
    restored := reloaded.completions;
    assert restored == [Completion(me.id, ch, today, photo)];
    CompletionsOfPush([], Completion(me.id, ch, today, photo), me.id);
  }

  /** The same steps with the completions saved on reset: nothing comes back. */
  method ResetSavedThenReload(me: User, ch: ChallengeId, photo: string, today: Day)
    returns (points: nat, restored: seq<Completion>)
    requires photo != []
    ensures points == 0
    ensures CompletionsOf(restored, me.id) == []
  {
    var app := new App.Mount([me], [], [], map[]);
    app.LogIn(0);
    app.CompleteChallenge(ch, photo, today);
    app.ResetProgressSaved(true);
    var reloaded := new App.Mount(app.storedUsers, app.storedChallenges, app.storedCompletions, app.storedChat);
    points := reloaded.storedUsers[0].points;
    restored := reloaded.completions;
    WithoutUserEffect([Completion(me.id, ch, today, photo)], me.id, me.id);
  }
}
