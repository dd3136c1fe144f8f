# Plank challenge — a Dafny model

The plank challenge is a web app. Participants join 28-to-31-day challenges, record one timed
plank a day and compare themselves on a leaderboard. This project models its core and proves
properties of the model:

- **statistics engine** (`PlankStats`): days completed, total, average and longest time,
  completion rate, current and longest streak, the improvement metric and the `M:SS`
  duration text;
- **progress calendar** (`Calendar`): one cell per day of the window, coloured completed,
  missed, today or future, behind blank cells that start the grid on a Sunday;
- **plank timer** (`Timer`): a 3-2-1 countdown, a running clock of whole seconds, Stop and
  Try Again, and the `MM:SS` clock text;
- **pages**, as classes whose methods update the page state and the document store:
  - record a plank (`RecordPlank`);
  - browse and join challenges (`Challenges`);
  - dashboard (`Dashboard`);
  - leaderboard with fistbumps (`Leaderboard`);
  - the admin's create-challenge form (`CreateChallenge`);
  - the admin's status badges (`Admin`).

**Store.** The document store (`Store`) is one object with a sequence per collection:
planks, participants, challenges and fistbumps. Storing a document appends it. A query is a
filter that keeps store order.

**Dates.** The source's `YYYY-MM-DD` strings are day numbers here. Day 0 is 1970-01-01, and
fixed-width ISO dates order like their day numbers. The current day and the clock are
parameters.

**Sorting.** Every comparator-based sort in the source sorts on one integer key. All of them
are the stable sort `Sorting.SortDesc`, which is proved sorted, a permutation and stable.

**Counting.** `daysCompleted` is the number of records, duplicates of a date included
(lib/utils/plankStats.ts:31). The two improvement samples never overlap, since each holds at
most half the records (lib/utils/plankStats.ts:114).

## Model

| member | source | states |
|---|---|---|
| Store.Db.constructor | lib/firebase.ts:1-50 | the store starts with four empty collections |
| Store.Db.AddPlank | app/record-plank/page.tsx:147-154 | storing a plank appends exactly that document and changes no other collection |
| Store.Db.AddParticipant | app/challenges/page.tsx:106-113 | storing a membership appends exactly that document and changes no other collection |
| Store.Db.AddChallenge | app/admin/create-challenge/page.tsx:54-63 | storing a challenge appends exactly that document and changes no other collection |
| Store.Db.AddFistbump | app/leaderboard/page.tsx:228-234 | storing a fistbump appends exactly that document and changes no other collection |
| Store.PlanksOf | app/dashboard/page.tsx:131-142 | the query for one user's planks in one challenge returns exactly the stored planks with that user and challenge |
| Store.PlanksOfAppend | app/record-plank/page.tsx:147-154 | a newly stored plank joins the end of its owner's list for its challenge, and every other list is unchanged |
| Store.RecordsPermutation | lib/utils/plankStats.ts:17 | reordering the stored documents reorders their (date, duration) records the same way |
| Store.HasPlankOnPlanksOf | app/record-plank/page.tsx:102-118 | the already-recorded check (`HasPlankOn`, `checkAlreadyRecorded`) holds exactly when the user's planks in the challenge include one of that date |
| Store.ActiveChallengeIdsOf | app/record-plank/page.tsx:51-59 | an id is in the result exactly when the user has an active membership of that challenge |
| Store.ParticipationsOf | app/dashboard/page.tsx:68-72 | the query returns exactly the user's memberships, whatever their status |
| Store.WithStatus | app/dashboard/page.tsx:83-84 | the filter keeps exactly the memberships with the given status |
| Store.ChallengeIds | app/dashboard/page.tsx:85 | the result has one challenge id per membership, position by position |
| Store.WithStatusSplit | app/dashboard/page.tsx:83-84 | the status filter distributes over concatenation, so it keeps the order of what it keeps |
| Store.ActiveIdsTwoStep | app/dashboard/page.tsx:68-85 | filtering the user's memberships by status in the page gives the same ids, in the same order, as the two-condition query of the other pages |
| Store.ActiveParticipantsOf | app/leaderboard/page.tsx:107-119 | the query returns exactly the active memberships of the challenge |
| Store.ChallengeById | app/leaderboard/page.tsx:185 | a found challenge is stored and carries the id; no result means no loaded challenge has it |
| Store.ChallengesByIds | app/leaderboard/page.tsx:75-88 | every document returned is stored and was asked for; every id that has a document gets one; ids without a document are skipped |
| Store.ChallengesByIdsAppend | app/leaderboard/page.tsx:75-88 | the documents come in the order of their ids: one more id adds its own document, if it has one, at the end and nothing else |
| Store.ChallengesByIdsInOrder | app/leaderboard/page.tsx:86-94 | when every id has a document, one document per id, the i-th being the i-th id's, so the first loaded challenge is the first membership's |
| Store.MembershipChallenges | app/leaderboard/page.tsx:57-90 | every challenge loaded for a user is stored and is one they are an active member of |
| Store.FistbumpGivenOnAppend | app/leaderboard/page.tsx:210-234 | once a fistbump is stored, the same-day check (`FistbumpGivenOn`) fires for exactly its sender, recipient, challenge and day, and is unchanged for every other combination |
| Store.FistbumpCount | app/leaderboard/page.tsx:140-147 | the count is bounded by the number of stored fistbumps |
| Store.FistbumpCountAppend | app/leaderboard/page.tsx:228-243 | storing a fistbump raises its recipient's count in its challenge by one and leaves every other count unchanged |
| Store.FistbumpCountMatches | app/leaderboard/page.tsx:140-147 | the count equals the number of stored positions matching recipient and challenge |
| Sorting.Insert | lib/utils/plankStats.ts:111 | one insertion step adds exactly one element: a permutation of the input plus x |
| Sorting.SortDesc | app/leaderboard/page.tsx:170-173 | the sorted copy is a permutation of its input |
| Sorting.SortDescSorted | app/leaderboard/page.tsx:170-173 | the result is non-increasing in the key |
| Sorting.SortDescStable | app/leaderboard/page.tsx:170-173 | elements with equal keys keep their input order (stability of the sort) |
| Sorting.SortDescOfSorted | app/leaderboard/page.tsx:191-194 | an input that is already sorted comes back unchanged |
| Sorting.InsertSorted | lib/utils/plankStats.ts:111 | inserting into a sorted sequence keeps it sorted |
| Sorting.InsertStable | lib/utils/plankStats.ts:111 | inserting keeps the order of every group of equal keys, x going first |
| Sorting.WithKeyAppend | app/leaderboard/page.tsx:170-173 | taking the elements of one key distributes over concatenation |
| Text.Digits | lib/utils/plankStats.ts:102 | `toString()` of a whole number is a non-empty digit string; it starts with 0 only for 0; it has one digit exactly below 10 |
| Text.DigitValue | lib/utils/plankStats.ts:102 | a digit character's value is below 10 and renders back to that character |
| Text.ParseDigits | lib/utils/plankStats.ts:102 | reading the decimal numeral of n gives n |
| Text.TwoDigitsAtMost | lib/utils/plankStats.ts:101-102 | a number below 100 has at most two digits |
| Text.ZeroPad | lib/utils/plankStats.ts:102 | `padStart(width, '0')` has length max(length, width), ends with the original and is zeros in front |
| Text.ParseZeroPad | lib/utils/plankStats.ts:102 | padding a numeral with zeros does not change its value |
| Text.PaddedNumeral | components/PlankTimer.tsx:22 | a zero-padded numeral of n is all digits, reads back as n and is as wide as asked |
| Text.IndexOf | lib/utils/plankStats.ts:102 | a found index holds the character, with none before it; no result means the character does not occur |
| Text.ParseClockFields | lib/utils/plankStats.ts:99-103 | a text built as minutes, colon and two second digits reads back as 60·minutes + seconds, with the colon right after the minutes |
| Text.ParseClockJoin | lib/utils/plankStats.ts:99-103 | reading back `minutes + ":" + seconds` gives the seconds it was built from |
| PlankStats.LongestPlank | lib/utils/plankStats.ts:34 | the longest plank bounds every duration and is attained, or is 0 with no records |
| PlankStats.CalculatePlankStats | lib/utils/plankStats.ts:17-97 | the day-by-day walk and the aggregates produce exactly the closed-form statistics `StatsOf`, whose properties the lemmas below prove |
| PlankStats.RunIsBlock | lib/utils/plankStats.ts:49-67 | the running streak at a day is a block of recorded days ending there and starting no earlier than the start |
| PlankStats.BlockWithinRun | lib/utils/plankStats.ts:49-67 | every recorded block ending at a day is no longer than the running streak there |
| PlankStats.RunStopsAtGap | lib/utils/plankStats.ts:58-63 | an unrecorded day caps every later running streak at the distance from it |
| PlankStats.RunBelowLongest | lib/utils/plankStats.ts:54-56 | every running streak is at most the longest streak |
| PlankStats.LongestRunAttained | lib/utils/plankStats.ts:54-56 | the longest streak is 0 for an empty walk and is otherwise the running streak at some walked day |
| PlankStats.LongestRunIsLongestBlock | lib/utils/plankStats.ts:38-67 | the longest streak is exactly the length of the longest block of consecutive recorded days in the walked window |
| PlankStats.DayRange | lib/utils/plankStats.ts:49 | the walked days of [lo, hi) are exactly those days, hi − lo of them |
| PlankStats.BlockBelowDateCount | lib/utils/plankStats.ts:43 | a recorded block has no more days than there are distinct recorded dates |
| PlankStats.RecordDatesBound | lib/utils/plankStats.ts:43 | there are no more distinct record dates than records |
| PlankStats.RecordDatesDistinct | lib/utils/plankStats.ts:43 | with one record per date, the date set is as large as the record list |
| PlankStats.StreakBounds | lib/utils/plankStats.ts:38-85 | 0 ≤ current streak ≤ longest streak; the longest streak is at most the walked days and at most the days completed |
| PlankStats.MissedDayCapsCurrentStreak | lib/utils/plankStats.ts:58-70 | a past unrecorded day inside the walk caps the current streak at the days since it |
| PlankStats.NoStreakWithoutTodayOrYesterday | lib/utils/plankStats.ts:72-85 | inside the window, with neither today nor yesterday recorded, the current streak is 0 |
| PlankStats.StreakSurvivesUnrecordedToday | lib/utils/plankStats.ts:58-85 | an unrecorded today does not end a streak that reached yesterday |
| PlankStats.TotalTimeBelowLongest | lib/utils/plankStats.ts:32-34 | the total time is at most the number of records times the longest plank |
| PlankStats.AverageWithinLongest | lib/utils/plankStats.ts:33-34 | the average lies between 0 and the longest plank |
| PlankStats.TotalTimeAppend | lib/utils/plankStats.ts:32 | the total of two record lists together is the sum of their totals |
| PlankStats.TotalTimePermutation | lib/utils/plankStats.ts:32 | the total time does not depend on the order of the records |
| PlankStats.TotalTimeRemove | lib/utils/plankStats.ts:32 | the total splits into one record's duration plus the total of the rest |
| PlankStats.StatsIgnoreOrder | lib/utils/plankStats.ts:17-97 | all statistics are the same for any ordering of the same records |
| PlankStats.RunGrows | lib/utils/plankStats.ts:49-67 | more recorded dates never shorten a running streak |
| PlankStats.LongestRunGrows | lib/utils/plankStats.ts:49-67 | more recorded dates never shorten the longest streak |
| PlankStats.AddRecordMonotone | lib/utils/plankStats.ts:31-67 | one more record adds one completed day and its duration to the total, and never lowers the completion rate, the current streak or the longest streak |
| PlankStats.CompletionRateAtMost100 | lib/utils/plankStats.ts:35 | one record per day, all inside the walked window, gives a completion rate between 0 and 100 |
| PlankStats.FormatDurationRoundTrip | lib/utils/plankStats.ts:99-103 | reading the text of `FormatDuration` (`formatDuration`) back gives the seconds |
| PlankStats.FormatDurationMinutesUnpadded | lib/utils/plankStats.ts:100-102 | the minutes are not padded: the text starts with 0 exactly below one minute |
| PlankStats.RoundDiv | lib/utils/plankStats.ts:134 | `Math.round(a / b)` is the integer nearest a/b, halves rounded up |
| PlankStats.SamplesDisjoint | lib/utils/plankStats.ts:114-125 | with two or more records both samples hold between one and five records and together fit in the list; every first-sample date is at most every last-sample date |
| PlankStats.ImprovementNearest | lib/utils/plankStats.ts:105-135 | `Improvement` (`calculateImprovement`) is 0 with fewer than two records or a zero first sample, and otherwise the integer nearest to 100·(l − f)/f for the sample totals f and l, halves rounded up |
| PlankStats.ImprovementAtLeastMinus100 | lib/utils/plankStats.ts:105-134 | the improvement is never below −100 percent |
| PlankStats.ImprovementSign | lib/utils/plankStats.ts:129-134 | a later sample at least as long gives a non-negative improvement, and one at most as long gives a non-positive one |
| PlankStats.ImprovementOfDoubling | lib/utils/plankStats.ts:133-134 | doubling the sampled average is an improvement of exactly 100 percent |
| PlankStats.TotalTimeOfSteady | lib/utils/plankStats.ts:32 | records of equal duration c total their number times c |
| PlankStats.ImprovementOfSteadyRecords | lib/utils/plankStats.ts:105-134 | records that all last equally long show an improvement of 0 |
| Calendar.BuildPlankMap | components/PlankCalendar.tsx:16-19 | filling the map record by record gives the map `PlankMapOf` of the records |
| Calendar.LastRecordWins | components/PlankCalendar.tsx:16-19 | a date is in the map exactly when some record carries it, and the map holds the duration of the last such record |
| Calendar.PlankMapByDate | components/PlankCalendar.tsx:16-19 | a date's map entry depends only on the records of that date, in order: present exactly when there is one, and then the duration of the last |
| Calendar.PlankMapAgree | components/PlankCalendar.tsx:16-19 | record lists that agree on a date's records, in order, agree on that date's entry |
| Calendar.CalendarSameByDate | components/PlankCalendar.tsx:16-41 | record lists that agree date by date, in order, give the same calendar |
| Calendar.StatusOf | components/PlankCalendar.tsx:31-37 | Future exactly after today; Completed exactly when the day is not after today and has a non-zero duration; Missed exactly when the day is before today without one; Today only for today |
| Calendar.GenerateDays | components/PlankCalendar.tsx:22-41 | the generation loop produces exactly the calendar `CalendarOf`, whose cells the lemmas below describe |
| Calendar.CalendarCoversWindow | components/PlankCalendar.tsx:22-41 | one cell per day from start to end, consecutive and ascending; none when start > end |
| Calendar.CalendarStatus | components/PlankCalendar.tsx:27-37 | a day's status follows the last record for it: future after today, otherwise completed exactly when that record's duration is non-zero |
| Calendar.CalendarUnrecordedDay | components/PlankCalendar.tsx:31-37 | a day no record carries is today, future or missed, never completed |
| Calendar.AtMostOneToday | components/PlankCalendar.tsx:31-32 | at most one cell is marked today, and it is the cell for today |
| Calendar.LeadingBlankCells | components/PlankCalendar.tsx:69-71 | fewer than 7 blank cells, after which the grid starts on a Sunday |
| Calendar.LeadingBlankCellsLeast | components/PlankCalendar.tsx:69-71 | no other count below 7 starts the grid on a Sunday |
| Timer.ElapsedMonotone | components/PlankTimer.tsx:72-74 | the elapsed seconds of `ElapsedSeconds` are never negative once the clock has reached the start, and never go down as the clock advances |
| Timer.PaddedClockRoundTrip | components/PlankTimer.tsx:19-23 | zero-padded minutes and seconds read back as their seconds, with a minutes field at least two wide |
| Timer.FormatTimeRoundTrip | components/PlankTimer.tsx:19-23 | reading the clock text of `FormatTime` (`formatTime`) back gives the seconds; the minutes field is at least two digits; below 100 minutes the text is five characters |
| Timer.FormatTimeWidth | components/PlankTimer.tsx:19-23 | below 100 minutes the clock text is five characters |
| Timer.PlankTimer.constructor | components/PlankTimer.tsx:10-14 | the timer mounts counting down from 3 with nothing elapsed |
| Timer.PlankTimer.Tick | components/PlankTimer.tsx:54-59 | a positive countdown goes down by one and nothing else changes |
| Timer.PlankTimer.Go | components/PlankTimer.tsx:60-65 | at 0 the countdown disappears, the clock runs and the start time is now; otherwise nothing changes |
| Timer.PlankTimer.Frame | components/PlankTimer.tsx:69-85 | while running, the elapsed time becomes the whole seconds since the start and never goes down |
| Timer.PlankTimer.Stop | components/PlankTimer.tsx:87-93 | the clock stops and reports the elapsed time shown, which is not negative |
| Timer.PlankTimer.Reset | components/PlankTimer.tsx:95-103 | back to the mounted state: countdown 3, stopped, nothing elapsed |
| Timer.Session | components/PlankTimer.tsx:53-93 | countdown, start, frames and stop report the whole seconds between start and stop |
| RecordPlank.ActiveChallenges | app/record-plank/page.tsx:84-88 | a challenge is kept exactly when today lies in its window |
| RecordPlank.OfferedChallenges | app/record-plank/page.tsx:50-90 | the challenges offered are exactly the stored challenges running today of which the user is an active member |
| RecordPlank.RecordPlankPage.constructor | app/record-plank/page.tsx:22-29 | the page starts with nothing loaded, selected, shown or recorded |
| RecordPlank.RecordPlankPage.FetchUserChallenges | app/record-plank/page.tsx:40-100 | the page lists the running challenges of the user's active memberships, and selects one when it is the only one |
| RecordPlank.RecordPlankPage.Select | app/record-plank/page.tsx:283 | the drop-down sets the selection |
| RecordPlank.RecordPlankPage.HandleStartTimer | app/record-plank/page.tsx:120-133 | no selection is an error; a plank already stored today (`HasPlankOn`) shows the notice instead of the timer; otherwise the timer shows |
| RecordPlank.RecordPlankPage.HandleTimerComplete | app/record-plank/page.tsx:135-157 | under 10 seconds is refused and nothing is stored; otherwise exactly one plank for user, challenge, today and duration is appended and the page shows completion |
| RecordPlank.StopAndSave | components/PlankTimer.tsx:87-148 | Stop & Save hands the shown elapsed time to the page; the minimum-time hint was showing exactly when the page refuses the plank and stores nothing, and otherwise the completion screen shows that duration |
| RecordPlank.RecordThenRestart | app/record-plank/page.tsx:102-157 | after a plank is stored, starting again the same day for the same challenge shows the already-recorded notice, not the timer |
| Challenges.StatusIs | app/challenges/page.tsx:133-136 | the filter keeps exactly the challenges with that stored status |
| Challenges.StatusIsSplit | app/challenges/page.tsx:133-136 | the status filter distributes over concatenation |
| Challenges.FilteredChallenges | app/challenges/page.tsx:133-136 | All keeps the list; any other filter keeps exactly the challenges with its status |
| Challenges.FilteredStaysSorted | app/challenges/page.tsx:133-136 | filtering a newest-first list keeps it newest first |
| Challenges.StatusIsSorted | app/challenges/page.tsx:133-136 | the status filter keeps a newest-first list newest first |
| Challenges.NameOf | app/challenges/page.tsx:109 | the stored name is the display name, or the e-mail when the display name is empty |
| Challenges.ChallengesPage.constructor | app/challenges/page.tsx:34-40 | the page starts with nothing loaded, filter All and no message |
| Challenges.ChallengesPage.FetchData | app/challenges/page.tsx:50-87 | the list is every stored challenge, newest start first, with ties in store order; a signed-in user's memberships are exactly their active ones, so `IsUserJoined` holds exactly for challenges they are an active member of |
| Challenges.ChallengesPage.HandleJoinChallenge | app/challenges/page.tsx:89-131 | without a user nothing happens; a challenge the loaded memberships include (`IsUserJoined`, `isUserJoined`) is refused and nothing is stored; otherwise one active membership with the user's name is appended and the page reloads: the list sorted again and the memberships exactly the user's active ones |
| Challenges.JoinTwice | app/challenges/page.tsx:89-127 | joining twice is refused the second time; the store gains exactly one active membership for the user and challenge when there was none, and none otherwise |
| CreateChallenge.AcceptedLengthOrdersDates | app/admin/create-challenge/page.tsx:42-48 | an accepted length (`LengthAccepted`, 28 to 31 days) means the end is at least four weeks after the start |
| CreateChallenge.CreateChallengeForm.constructor | app/admin/create-challenge/page.tsx:15-21 | the form starts empty, without an error |
| CreateChallenge.CreateChallengeForm.SetFields | app/admin/create-challenge/page.tsx:15-19 | typing sets the text fields |
| CreateChallenge.CreateChallengeForm.HandleStartDateChange | app/admin/create-challenge/page.tsx:24-32 | picking a start date sets the end date 30 days later; clearing it leaves the end date |
| CreateChallenge.CreateChallengeForm.SetEndDate | app/admin/create-challenge/page.tsx:18 | the end date can be set by hand |
| CreateChallenge.CreateChallengeForm.HandleSubmit | app/admin/create-challenge/page.tsx:34-63 | a challenge is stored exactly when all required fields are set and the length is 28 to 31 days; the stored document carries the fields, the admin and status active; a missing field or a bad length sets its error and stores nothing |
| CreateChallenge.FillAndSubmit | app/admin/create-challenge/page.tsx:24-63 | a title, a description and a start date are enough: the pre-filled 30-day end passes the check and the challenge is stored |
| Admin.BadgeOf | app/admin/page.tsx:97-122 | Active exactly inside the window; Upcoming exactly before the start; Completed exactly after the end once started |
| Admin.ExactlyOneClass | app/admin/page.tsx:97-100 | for a window that does not end before it starts, exactly one of `IsActive`, `IsUpcoming` and `IsCompleted` holds, and the badge names it |
| Admin.InvertedWindow | app/admin/page.tsx:97-122 | a window that ends before it starts is never active |
| Admin.BadgeProgresses | app/admin/page.tsx:97-122 | as days pass the badge only moves forward: Upcoming, then Active, then Completed |
| Dashboard.RecordsWithKey | app/dashboard/page.tsx:305-325 | taking the records of one date commutes with turning documents into records |
| Dashboard.DashboardPage.constructor | app/dashboard/page.tsx:32-36 | the page starts with nothing loaded or selected and no statistics |
| Dashboard.DashboardPage.FetchPlanksForChallenge | app/dashboard/page.tsx:129-156 | the page holds exactly the user's planks in the challenge, and the statistics are those of exactly those planks |
| Dashboard.DashboardPage.ActiveChallengeIds | app/dashboard/page.tsx:68-85 | the ids are those of the user's active memberships, in store order |
| Dashboard.DashboardPage.FetchUserData | app/dashboard/page.tsx:56-127 | the page loads the challenges of the user's active memberships; when there are some, the first is selected and its planks and statistics are loaded; otherwise nothing changes |
| Dashboard.DashboardPage.HandleChallengeChange | app/dashboard/page.tsx:158-164 | the selection changes; a loaded challenge's planks and statistics are loaded; an unknown id changes nothing else |
| Dashboard.DashboardPage.RecentPlanks | app/dashboard/page.tsx:323-325 | the page's planks are sorted newest first in place and the recent list is the first ten; the sort keeps the same planks, statistics and calendar |
| Leaderboard.Entry.constructor | app/leaderboard/page.tsx:149-159 | a row carries the participant, their statistics, improvement and fistbump count, with rank 0 |
| Leaderboard.LeaderboardPage.constructor | app/leaderboard/page.tsx:41-44 | the board starts empty and sorted on total time, for the given user, loaded challenges and selection |
| Leaderboard.LeaderboardPage.SortLeaderboard | app/leaderboard/page.tsx:169-181 | the board is a sorted, stable permutation of the rows, highest first on the chosen statistic (`Key`), ranked 1, 2, … by position |
| Leaderboard.LeaderboardPage.HandleSortChange | app/leaderboard/page.tsx:191-194 | the key changes and the board already shown is re-sorted on it and re-ranked |
| Leaderboard.LeaderboardPage.BuildEntry | app/leaderboard/page.tsx:122-159 | a new row holds the participant's statistics and improvement from their planks in the challenge and their fistbump count there |
| Leaderboard.LeaderboardPage.BuildEntries | app/leaderboard/page.tsx:115-162 | one new row per participant, in their order, no row twice |
| Leaderboard.LeaderboardPage.FetchLeaderboard | app/leaderboard/page.tsx:104-167 | the board shows one row per active participant of the challenge, sorted on the current key and ranked |
| Leaderboard.LeaderboardPage.FetchUserChallenges | app/leaderboard/page.tsx:57-102 | the page loads the challenges of the user's active memberships; when there are some, the first is selected and its board is shown |
| Leaderboard.LeaderboardPage.HandleChallengeChange | app/leaderboard/page.tsx:183-189 | the selection changes; a loaded challenge's board is shown; an unknown id changes nothing else |
| Leaderboard.LeaderboardPage.GiveFistbump | app/leaderboard/page.tsx:196-243 | no user or selection, a self-fistbump, or one already sent today (`FistbumpGivenOn`) stores nothing and leaves the board; otherwise exactly one fistbump dated today is appended, the recipient's count rises by one, and the board of the selected challenge is shown again when it is loaded and left as it was when it is not |

## Left out

- Firestore I/O, its failures and its asynchrony. A failing call leaves the page unchanged in the source; the model has no failing call. `checkAlreadyRecorded` answering false on an error is not modelled.
- Document ids and creation times. The id the store gives a new challenge is a parameter of `CreateChallenge.CreateChallengeForm.HandleSubmit`.
- The `createdAt`, `joinedAt` and `notes` fields, and so the admin overview's ordering by `createdAt` (app/admin/page.tsx:36).
- Authentication, route guards and redirects. The signed-in user is a constructor parameter.
- Message timeouts and message texts: messages are enumerations.
- Loading and saving flags.
- The timer's audio beeps and animation-frame scheduling. The clock reading is a parameter of `Timer.PlankTimer.Go` and `Timer.PlankTimer.Frame`.
- JavaScript `Date` and time zones. The source walks local midnights but names days by their UTC date; the model takes a zero offset, where the two agree.
- Floating point. The completion rate and the improvement are computed exactly: floor(100·completed/days) and round-half-up of the percentage change.
- `calculatePlankStats` sorts its records (lib/utils/plankStats.ts:28) and never uses the result, so that sort is not modelled.
- The calendar component's own `formatDuration` (components/PlankCalendar.tsx:47-51) is the same text as the library's; both are `PlankStats.FormatDuration`.
- In-place sorts of arrays of values (challenge list, recent planks) are modelled as reassigning a sequence field with its sorted value. Aliasing matters only for the leaderboard rows, whose ranks are written into shared objects; those are objects.
- Leaderboard.LeaderboardPage.FetchUserChallenges: requires a signed-in user, because the page only calls it with one (app/leaderboard/page.tsx:49-55).
- Leaderboard.LeaderboardPage.HandleSortChange: states the new board as the re-sorted old board. It does not restate it as the board of a challenge, because the shown board may be one loaded for another selection.
