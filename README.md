# HabitFlow ledger and streaks, in Dafny

HabitFlow is a habit-challenge tracker. A user joins challenges and completes one by uploading a photo, which earns 10 points. The user follows a daily streak, a seven-day consistency chart and a completion rate, and redeems points for rupees. This project models the domain logic of its two halves.

- **Server** (`backend/server.js`). The document store becomes class `Backend.Store`. It holds users with their points and joined challenges, the completion records, and each challenge's participant count. The create-completion, reset-progress and join-challenge routes are its methods. The statistics route is `Store.GetStatistics`. Its streak loop is `Streaks.StreakWalk`, modelled literally and proved against a specification over the set of completion days (`Streaks.CurrentStreak`, `Streaks.Longest`). The store invariant `Store.Valid` combines three facts:
  - no two completions share (user, challenge, date);
  - every user's points are ten per completion they own;
  - no joined-challenge list repeats an id.

  Every mutating route preserves it when the routes run one at a time (see "## Left out").
- **Single-page dashboard** (`frontend/src/App.js`). The component state and its browser-storage copy are the fields of class `Frontend.App`. The state changes (completing, joining, resetting, chatting) are its methods. The pure derivations are functions and lemmas in module `Dashboard`: today's completed and pending counts, the seven-day series (a method, because the source loops), calendar-day marking, the completion rate and the reward arithmetic.
- **Shared definitions** (module `Common`): the completion record, the per-user filters and the integer form of `Math.round(100 * c / n)`.

Dates are whole day numbers. A `YYYY-MM-DD` string parses to UTC midnight, so "86400000 ms apart" means "consecutive days". "Today" is a parameter wherever the source reads the clock.

A streak is a run of consecutive completion days, and one that ends today or yesterday is live. A completion today after a gap therefore starts a live one-day streak. The route's gap branch never assigns `currentStreak`, so days 1 and 3 seen on day 3 give 0. The model follows the code (`Streaks.StreakWalk`). It proves the discrepancy for every input (`Streaks.GapBeforeToday`, `Streaks.GapBeforeYesterday`) and gives the corrected walk (`Streaks.StreakWalkFixed`) under "## Findings".

## Model

| member | source | states |
|---|---|---|
| Common.CompletionsOf | backend/server.js:422 | exactly the records of the given user, never more than the store holds |
| Common.WithoutUser | backend/server.js:225 | exactly the records of every other user (`deleteMany({ userId })`) |
| Common.WithoutUserEffect | backend/server.js:224-225 | after deleting a user's records that user has none, and every other user keeps exactly their records in order |
| Common.CompletionsOfPush | backend/server.js:343-350 | appending a record adds it to its own user's list and to no other user's |
| Common.HasCompletion | backend/server.js:332-336 | the duplicate query finds a record exactly when one of the user's records on that date is for that challenge |
| Common.CompletionsOn | frontend/src/App.js:280-282 | exactly the user's records dated on the given day |
| Common.Dates | backend/server.js:430 | the list of dates, one per record, in record order |
| Common.RoundedPercent | backend/server.js:451 | half-up rounding of 100c/n: 2n·r ≤ 200c + n < 2n·(r+1) |
| Common.RoundedPercentBounds | backend/server.js:450-452 | the rate is at most 100 while completions do not outnumber challenges, at least 100 once they do, and 0 with no completions |
| Streaks.InsertSorted | backend/server.js:430 | inserting into a strictly increasing list keeps it strictly increasing and adds exactly that day |
| Streaks.DistinctSorted | backend/server.js:430 | `[...new Set(dates)].sort()` is strictly increasing and holds exactly the listed days |
| Streaks.DuplicateDayCountsOnce | backend/server.js:430 | a date already present leaves the walked list unchanged, so several completions on one day count once |
| Streaks.RunSpan | backend/server.js:433-434 | Run(D, x) = k exactly when days x-k+1..x are present and x-k is not |
| Streaks.LongestIsMax | backend/server.js:435 | the longest streak bounds every run, is reached by one, is at least 1 when there is a completion day, and is 0 with none |
| Streaks.StepFacts | backend/server.js:433-441 | the loop's first-or-consecutive test holds exactly on days reached without a gap; the running length is then the previous run plus one, else 1 |
| Streaks.CurrentStep | backend/server.js:436-438 | one loop step assigns the current streak exactly when the day is today or yesterday and the consecutive branch was taken |
| Streaks.StreakWalk | backend/server.js:425-442 | the literal loop returns CurrentStreak(days, today) and Longest(days) of the distinct completion days |
| Streaks.StreakBounds | backend/server.js:425-442 | no completions give both streaks 0; some give a longest of at least 1; current ≤ longest; current > 0 only with a completion today or yesterday |
| Streaks.LongestMonotonic | backend/server.js:435 | adding completion days never lowers the longest streak |
| Streaks.ConsecutiveEndingToday | backend/server.js:432-442 | k consecutive days ending today give current = longest = k |
| Streaks.StaleStreak | backend/server.js:436-438 | days 1 and 2 seen from day 10: current 0, longest 2 |
| Streaks.GapBeforeToday | backend/server.js:439-441 | a completion today after a gap, with earlier days present, gives a current streak of 0 where the live streak is 1 |
| Streaks.GapBeforeYesterday | backend/server.js:439-441 | a completion yesterday after a gap, none today and earlier days present, gives a current streak of 0 where the live streak is 1 |
| Streaks.GapThenToday | backend/server.js:439-441 | days 1 and 3 seen from day 3: the route's current streak is 0, the live streak 1, the longest 1 |
| Streaks.StreakWalkFixed | backend/server.js:432-442 | the loop, with the today-or-yesterday update taken out of the consecutive branch, returns LiveStreak and Longest |
| Streaks.FixedAgreesWithRoute | backend/server.js:432-442 | both walks agree whenever today, or else yesterday, is reached without a gap |
| Streaks.LiveStreakBounds | backend/server.js:432-442 | the live streak is positive exactly when there is a completion today or yesterday, and never exceeds the longest |
| Backend.AddToSet | backend/server.js:283 | `$addToSet` holds exactly the old ids plus the new one, grows only for a new id, and keeps the list repeat-free |
| Backend.CompletionRate | backend/server.js:450-452 | 0 without challenges; otherwise completions/challenges as a percentage rounded half up, possibly above 100 |
| Backend.Award | backend/server.js:353-356 | `$inc: { points: 10 }`: exactly that user, if present, gains 10 points; every other user and the set of users are unchanged |
| Backend.LedgerAfterCreate | backend/server.js:350-356 | saving a completion and adding 10 points to its user keeps every user at ten points per completion |
| Backend.LedgerAfterReset | backend/server.js:215-225 | zeroing a user and deleting that user's completions keeps every user at ten points per completion |
| Backend.UniquePush | backend/server.js:332-350 | appending a record whose key is new keeps (user, challenge, date) unique |
| Backend.UniqueWithoutUser | backend/server.js:225 | deleting one user's records keeps the rest unique |
| Backend.Store.constructor | backend/server.js:24-50 | an empty store satisfies the invariant |
| Backend.Store.InsertUser | backend/server.js:24-33 | a new user document has 0 points and no challenges; the invariant holds |
| Backend.Store.InsertChallenge | backend/server.js:35-42 | a new challenge starts with 1 participant; the invariant holds |
| Backend.Store.CreateCompletion | backend/server.js:327-363 | a duplicate key is refused with nothing changed; a missing photo fails validation with nothing changed; otherwise exactly one record is appended and exactly that user gains 10 points; the invariant holds |
| Backend.Store.ResetProgress | backend/server.js:213-232 | the user is back to 0 points and no challenges, only that user's completions are deleted, and the updated document (or null) is returned; the invariant holds |
| Backend.Store.JoinChallenge | backend/server.js:273-295 | a missing challenge fails with nothing changed; otherwise the id is added set-wise and participants rise by exactly 1 on every call; the invariant holds |
| Backend.Store.GetStatistics | backend/server.js:419-458 | the six fields as the route computes them, an error for a missing user, and total points equal to ten times total completions in a valid store |
| Dashboard.ChallengeCompletionStats | frontend/src/App.js:279-289 | completed + pending = total = number of joined challenges, and completed is the count of the user's completions today, never more than the user's completions |
| Dashboard.PendingCanBeNegative | frontend/src/App.js:286 | two completions today with one joined challenge leave pending at -1 |
| Dashboard.CompletingToday | frontend/src/App.js:221-238 | each completion made today raises completed by one and lowers pending by one, even for a repeat |
| Dashboard.ConsistencyData | frontend/src/App.js:291-306 | exactly 7 entries, oldest first, entry j counting the user's completions on today-6+j |
| Dashboard.ConsistencyTotal | frontend/src/App.js:291-306 | the seven counts sum to at most the user's completions |
| Dashboard.IsDateCompleted | frontend/src/App.js:308-313 | a day is marked exactly when one of the logged-in user's completions has that date; nothing is marked with no one logged in |
| Dashboard.DateCompletedIffCounted | frontend/src/App.js:308-313 | a calendar day is marked exactly when the user has a completion dated that day |
| Dashboard.DashboardCompletionRate | frontend/src/App.js:1503 | half-up rounding of 100 · completions / max(joined challenges, 1) |
| Dashboard.DashboardRateVersusServer | frontend/src/App.js:1503 | 0 without completions; equal to the server's rate once a challenge is joined; 100 per completion with none joined, where the server reports 0 |
| Dashboard.Redeemable | frontend/src/App.js:608 | floor(points / 10): 10r ≤ points < 10r + 10 |
| Dashboard.PointsToNext | frontend/src/App.js:752 | between 1 and 100, and reaching the next multiple of 100 |
| Dashboard.CanRedeem | frontend/src/App.js:1389-1399 | the redeem button is enabled exactly when at least ₹10 is redeemable |
| Dashboard.RedeemThreshold | frontend/src/App.js:1399-1401 | below 100 points, the "Need N more points" figure is exactly the distance to 100 |
| Frontend.ReplaceUser | frontend/src/App.js:243 | every record with the id becomes the new record; every other record and the length are unchanged |
| Frontend.SetChallenges | frontend/src/App.js:213-215 | every record with the id takes the new challenge list, with its other fields kept; every other record and the length are unchanged |
| Frontend.AddParticipant | frontend/src/App.js:204-206 | every challenge with the id gains exactly one participant; every other challenge and the length are unchanged |
| Frontend.ThreadWith | frontend/src/App.js:273 | the thread is the old one, or empty when there is none, followed by exactly the new message |
| Frontend.LedgerAfterComplete | frontend/src/App.js:235-245 | after a completion with its 10 points, every record of the user equals the new logged-in copy, and a ledger of ten points per completion stays balanced |
| Frontend.LedgerAfterReset | frontend/src/App.js:331-342 | after zeroing the user's records and dropping that user's completions, the records equal the reset copy and a balanced ledger stays balanced |
| Frontend.App.Mount | frontend/src/App.js:103-109 | state equals storage, with empty challenges seeded by the samples; nobody is logged in |
| Frontend.App.LogIn | frontend/src/App.js:149-154 | the matched record becomes the logged-in copy and its challenges the joined list; nothing else changes |
| Frontend.App.UpdateUserChallenges | frontend/src/App.js:212-219 | the logged-in user's records and copy take the new list, and the users are saved |
| Frontend.App.JoinChallenge | frontend/src/App.js:197-210 | a no-op for an id already joined; otherwise the id is appended once and exactly that challenge gains one participant, saved |
| Frontend.App.CompleteChallenge | frontend/src/App.js:221-249 | no photo changes nothing; otherwise exactly one completion of the user dated today is appended and only that user's records gain 10 points, saved; sync, ledger and persistence preserved |
| Frontend.App.SendChatMessage | frontend/src/App.js:262-277 | exactly one message is appended to that challenge's thread and every other thread is unchanged, saved |
| Frontend.App.ResetProgress | frontend/src/App.js:329-344 | the user's records lose points and challenges, only that user's completions leave memory, the users are saved and the stored completions are not |
| Frontend.App.ResetProgressSaved | frontend/src/App.js:329-344 | the same reset with the filtered completions saved, so storage stays equal to state |
| Frontend.ResetThenReload | frontend/src/App.js:329-344 | complete, reset and reload: the user has 0 points but the completion is back |
| Frontend.ResetSavedThenReload | frontend/src/App.js:329-344 | the same steps with the corrected reset: 0 points and no completion |

## Left out

- Concurrency between requests: every route runs as one atomic step, but the source awaits the duplicate query, the save and the `$inc` separately (backend/server.js:332-356) and declares no unique index (backend/server.js:44-50). Two interleaved requests with the same (user, challenge, date) can therefore both pass the check, store a duplicate and pay 20 points. `Store.Valid`'s uniqueness and ledger halves hold only for requests that run one at a time.
- HTTP routing, status codes, CORS and body-size middleware, and the JWT check. The join route's caller id is a parameter.
- Sign-up and log-in credentials (bcrypt, token signing, email and password matching, the dashboard's auto sign-up branch). Only the store effect of sign-up (`Store.InsertUser`) and the known-user branch of the dashboard's log-in (`App.LogIn`, given the index of the matched record) are modelled.
- Mongoose specifics (`populate`, `sort`, `limit`, connections, ObjectId casting). The photo requirement is shown as an error of its own. The server's other 500 replies are left out.
- The database seeding script and the `/api/init-challenges` route. The dashboard's first-load seeding is kept only as the participant counts of its three sample challenges.
- Local-storage JSON serialization and `FileReader` photo loading; a photo is a string, empty for "no photo".
- The calendar month grid, weekday labels, and the shift between local time and UTC in `toISOString`: every date is a UTC day number.
- Floating point: `c / n * 100` is rounded in exact rational arithmetic.
- The search filter with `toLowerCase`, all JSX, themes and styling.
- Generated ids and timestamps (`Date.now()`, `new Date()`); message and completion ids are dropped, and `today` is a parameter.
- `handleCreateChallenge`, `updateProfile` and the server's profile, listing and chat routes: not part of the ledger.
- The vestigial `completions: []` field that the dashboard's reset writes into the user record: nothing reads it.
- User emails, passwords, themes and profile pictures, and the UI-only state (selected challenge, pending photo, open dialogs).
- Frontend.App.LogIn: keeps the records in sync only when user ids are unique; the component relies on clock-generated ids being distinct.

## Findings

| source | as written | input that shows it | evidently intended | confidence | as-written member | corrected member |
|---|---|---|---|---|---|---|
| backend/server.js:439-441 | the gap branch resets the running length to 1 but never assigns `currentStreak` | completions on days 1 and 3, today = 3: current streak 0 | a day after a gap starts a new run, so a completion today or yesterday right after a gap is a live one-day streak | not executed | Streaks.GapThenToday | Streaks.StreakWalkFixed |
| frontend/src/App.js:329-344 | reset filters the completions in memory but never saves them, while the zeroed users are saved | complete one challenge, reset, reload: 0 points and the completion restored | the filtered completions are saved too, as everywhere else the list changes | not executed | Frontend.ResetThenReload | Frontend.App.ResetProgressSaved |
