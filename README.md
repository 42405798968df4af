# Friends checking bot, modelled in Dafny

This project models the core of a Telegram bot about friendship. A user creates a
fifteen-question "how well do you know me" quiz and shares it as a deep link.
Friends take the quiz and get a score and a friendship band. Daily interactions
between two friends build a friendship streak. Weekly and streak leaderboards rank
users. A premium subscription lifts the free-tier limits. Two side scripts also
belong to the core: a broadcast script that messages every user in batches, and
an admin statistics module.

The Telegram transport, the database and the generative model are replaced by
explicit inputs:
- the store is an in-memory table, held in a class field or passed as a sequence;
- a store failure is a `fault` flag per call;
- times are integer day numbers, or seconds for the admin statistics;
- random choices (the quote, the drawn guess, the encouraging text) are parameters.

Each module follows one source file or one concern:

| module | file | models |
|---|---|---|
| `Common` | common.dfy | Option, languages and their English fallback, `str(int)`/`int(str)`, `split`, `startswith`, `strip`, `replace`, display names, the translation lookup, the `count or 0` default |
| `FriendshipStreaks` | streaks.dfy | the streak table (`get_or_create_streak`, `update_streak`), the friends list, the counterpart of a streak row |
| `Leaderboard` | leaderboard.dfy | the weekly best-score board, the streak board, the rank lookups and the "your rank" lines |
| `Quiz` | quiz.dfy | free-tier gates, birthday validation, the question bank, answer payloads, quiz sessions, scoring, bands, result rows |
| `Translations` | translations.dfy | `get_friendship_level_message` |
| `StreakActions` | streak_actions.dfy | `get_streak_message`, `log_interaction`, the guess, weekly, daily-question and retake handlers |
| `StartFlow` | start_flow.dfy | `/start` routing, `handle_streak_link`, `start_taking_test`, `language_selected` |
| `Balance` | balance.dfy | premium plans, period names, plan selection, amount formatting, `activate_premium` |
| `Broadcast` | broadcast.dfy | `escape_markdown_v2`, `fetch_users`, `generate_message`, batching and tallies, the language distribution |
| `Admin` | admin.dfy | `get_todays_active_users` and the start of "today" |

Where two source files hold the same handler, the model follows `start_handler.py`,
because its versions hold the streak-link route, the own-test and already-taken
checks and the pending-test handoff after the language choice. `main.py` has its
own `start`, `start_taking_test` and `language_selected` without these, and its
`main()` registers those (main.py:809, 832). None of the source files here
registers the `start_handler.py` versions: the entry point that wires them is not
part of this model.

## Model

| member | source | states |
|---|---|---|
| Common.LangOf | main.py:41-43 | every table lookup reads "uz" and "ru" as themselves and any other code as English |
| Common.PyIntToString | main.py:459 | `int(str(i)) == i` for every integer, the round trip every payload parser relies on |
| Common.Translate | main.py:41-43 | `get_text`: the language's table or the English one, then the entry or the key itself |
| Common.TranslateFallsBackToEnglish | friendship_streaks.py:285-287 | a language without a table reads exactly as English; a key no table knows reads as itself |
| Common.CountOrZero | main.py:146-153 | a counting query gives its count, 0 when the count is missing, and 0 when the store fails |
| Common.DisplayNameChoice | friendship_streaks.py:408 | the shown name is the stripped full name unless both parts are blank (every character `str.isspace`); then it is the username |
| Common.StripTrims | friendship_streaks.py:408 | `strip()` leaves no surrounding `str.isspace` character and keeps the middle of the text |
| Common.UnicodeSpacesStripped | friendship_streaks.py:408 | a no-break-space first name counts as blank and the username is shown; a trailing no-break space is trimmed |
| Common.SplitLast | streak_actions.py:568 | `split('_')[-1]` is the text after the last separator |
| FriendshipStreaks.FindPair | friendship_streaks.py:294-300 | the first row of the pair in either orientation, or None exactly when the pair has no row |
| FriendshipStreaks.FindPairSymmetric | friendship_streaks.py:294-300 | the lookup gives the same row whichever user comes first |
| FriendshipStreaks.Fresh | friendship_streaks.py:303-314 | an inserted row belongs to the pair with both counts 0 and no last interaction |
| FriendshipStreaks.Advance | friendship_streaks.py:330-367 | same day: the row is unchanged; first interaction: 1; next day: plus one; any other gap, negative included: 1; longest becomes the running maximum |
| FriendshipStreaks.AdvanceMonotone | friendship_streaks.py:358-360 | the longest streak never decreases, and `longest >= current` is preserved |
| FriendshipStreaks.AdvanceIdempotent | friendship_streaks.py:341-344 | a second interaction on the same day changes nothing |
| FriendshipStreaks.SummariseStep | friendship_streaks.py:341-367 | one more interaction on a later or equal day keeps the row a summary of the history |
| FriendshipStreaks.ReplaySummarises | friendship_streaks.py:321-367 | after any history of interaction days, current is the length of the run of consecutive days ending at the last one, and longest is the longest such run |
| FriendshipStreaks.StreakStore.constructor | friendship_streaks.py:290-318 | an empty, well-formed table |
| FriendshipStreaks.StreakStore.GetOrCreate | friendship_streaks.py:290-318 | returns the existing row of the pair and inserts nothing; otherwise inserts exactly one fresh row; on a failure returns None and changes nothing |
| FriendshipStreaks.StreakStore.Update | friendship_streaks.py:321-373 | applies the day rule to the row with the id and returns its current streak; a missing row or a failure returns 0 and writes nothing |
| FriendshipStreaks.SameDayTwice | friendship_streaks.py:341-344 | two updates on the same day return the same days, and the second writes nothing |
| FriendshipStreaks.FriendsOf | friendship_streaks.py:397-410 | each listed friend has a profile, and the shown name is its display name |
| FriendshipStreaks.FriendsOfMembers | friendship_streaks.py:397-410 | the listed friends are exactly the takers who have a profile |
| FriendshipStreaks.FriendsOfDescending | friendship_streaks.py:389-410 | the list keeps the store's order, highest score first, and no friend scores above the best result |
| FriendshipStreaks.FriendsList | friendship_streaks.py:376-416 | the takers of the user's first test with a profile; nothing without a test or on a failure |
| FriendshipStreaks.Counterpart | friendship_streaks.py:454 | the other member of a streak row, seen from one member |
| FriendshipStreaks.CounterpartOfPair | friendship_streaks.py:454 | looking up a pair and taking one member's counterpart gives the other member |
| Leaderboard.WeekStart | leaderboard.py:56-58 | the most recent Monday at or before today |
| Leaderboard.BestOfGroups | leaderboard.py:69-76 | each user of the rows gets exactly one entry, holding their largest score, and later equal scores do not replace it |
| Leaderboard.BestScores | leaderboard.py:69-76 | the grouping loop computes the grouped entries |
| Leaderboard.SortDescCorrect | leaderboard.py:80 | the sort is descending by score, a permutation, and stable |
| Leaderboard.SortDescKeepsDistinct | leaderboard.py:80 | sorting keeps one entry per user |
| Leaderboard.Top10 | leaderboard.py:80 | `[:10]` is a prefix of at most ten entries |
| Leaderboard.Named | leaderboard.py:81-100 | users without a profile are dropped, and the rest keep their score and display name |
| Leaderboard.NamedKeepsOrder | leaderboard.py:81-100 | dropping users keeps the descending order and uniqueness |
| Leaderboard.BestOfIsBest | leaderboard.py:69-76 | every grouped entry is a row of that user and at least as large as all of their rows |
| Leaderboard.WeeklyBoardShape | leaderboard.py:52-103 | at most ten lines, one per user, scores non-increasing, each the user's best score |
| Leaderboard.WeeklyTop | leaderboard.py:52-107 | the method returns the weekly board over this week's first 50 rows of the table, or nothing on a failure |
| Leaderboard.WeekStartTime | leaderboard.py:56-58 | midnight UTC of the most recent Monday, at most a week before now |
| Leaderboard.Since | leaderboard.py:63 | `.gte('created_at', ...)` keeps exactly the rows created at or after the start |
| Leaderboard.WeeklyQuery | leaderboard.py:61-67 | at most 50 rows, all of this week; every row of this week when there are no more than 50 |
| Leaderboard.SinceKeepsOrder | leaderboard.py:63-65 | filtering keeps the query order, best score first and then oldest first |
| Leaderboard.QueryKeepsOrder | leaderboard.py:63-66 | the filtered and limited rows stay in query order |
| Leaderboard.FirstRowIsFirst | leaderboard.py:70-76 | the position found is the user's first row, and no row of the user means none is found |
| Leaderboard.BestOfFirstSeen | leaderboard.py:70-76 | the dictionary lists every user with a row, in the order of their first row |
| Leaderboard.BestIsFirstRow | leaderboard.py:64-76 | with rows in query order, each user's entry is the score of their first row |
| Leaderboard.SortTies | leaderboard.py:80 | the stable sort keeps equal scores in dictionary order |
| Leaderboard.NamedTies | leaderboard.py:80-100 | dropping users without a profile keeps that order among equal scores |
| Leaderboard.WeeklyTiesByTime | leaderboard.py:61-100 | with rows in query order, each line's score is its user's first row, and of two lines with equal scores the user who reached the score first comes first |
| Leaderboard.PairKey | leaderboard.py:132 | `tuple(sorted(...))` is ordered and is one of the two orientations |
| Leaderboard.PairKeySymmetric | leaderboard.py:132 | both orientations of a pair get the same key |
| Leaderboard.ScanBounded | leaderboard.py:171-172 | the scan stops at ten lines |
| Leaderboard.ScanDistinct | leaderboard.py:131-137 | no unordered pair appears twice |
| Leaderboard.ScanDescending | leaderboard.py:113-117 | lines keep the descending streak order of the query |
| Leaderboard.ScanFromRows | leaderboard.py:127-151 | every line is a fetched row with a running streak whose two users have profiles |
| Leaderboard.ScanComplete | leaderboard.py:122-172 | a board shorter than ten lines lists every such pair |
| Leaderboard.StreakBoardShape | leaderboard.py:110-179 | the streak board: at most ten lines, no pair twice, descending, from the rows, complete when short |
| Leaderboard.LongestStreaks | leaderboard.py:110-183 | the method returns the streak board, or nothing on a failure |
| Leaderboard.WeeklyRankOf | leaderboard.py:186-191 | the 1-based position of the first line of the user, or 0 when none matches |
| Leaderboard.WeeklyRank | leaderboard.py:186-191 | returns that rank with its score, or (0, 0) |
| Leaderboard.RankOfFirstMatch | leaderboard.py:188-190 | the rank is the first match, not a later one |
| Leaderboard.StreakRank | leaderboard.py:194-199 | the first line on which the user is either member, with its days, or (0, 0) |
| Leaderboard.WeeklyRankLineNeverShown | leaderboard.py:231 | as written, the "your rank" line can never appear |
| Leaderboard.YourWeeklyRank | leaderboard.py:229-232 | corrected: a rank from the full ranking, shown only above 10 |
| Leaderboard.YourWeeklyRankShown | leaderboard.py:229-232 | the corrected line appears exactly for a user with a result this week who is not in the top ten |
| Leaderboard.YourWeeklyRankScore | leaderboard.py:229-232 | the corrected line shows the user's best score of the week |
| Quiz.IsPremium | main.py:164-173 | premium exactly when the row exists, the flag is true, and the store works |
| Quiz.GateFacts | main.py:283 | premium users are never refused; a free user is refused exactly from the limit on; a failed count never refuses |
| Quiz.Truncate | main.py:117-118 | `int(x)` of a float drops the fraction toward zero |
| Quiz.IntOf | main.py:117-118 | `int(v)` keeps integers, truncates finite floats toward zero, and fails on NULL, NaN, the infinities, lists and objects |
| Quiz.ValidBirthday | main.py:115-121 | accepted exactly when name, day and month are present with day in 1..31 and month in 1..12 after conversion |
| Quiz.FloatFieldsTruncated | main.py:117-121 | a float day of 31.9 passes as 31; 0.5 and -0.5 become 0 and are refused; NaN raises |
| Quiz.ThirtyFirstOfFebruaryAccepted | main.py:120 | 31 February passes; there is no per-month day check |
| Quiz.OptionCounts | test_questions.py:9-196 | each language has fifteen questions, each with four to seven options |
| Quiz.QuestionsFor | test_questions.py:199 | an unknown language gets the English bank |
| Quiz.OptionCountsDiffer | test_questions.py:12 | question 0 has 7 options in uz and 6 in en; question 12 has 4 and 5; so the banks disagree |
| Quiz.Buttons | main.py:417-418 | one `test_answer_{i}` button per option, in order |
| Quiz.AnswerPayloadRoundTrip | main.py:459 | both answer payloads parse back to their index |
| Quiz.SharePayload | main.py:495 | the share payload starts with `s_` and is two characters longer than the id |
| Quiz.SharePayloadRoundTrip | start_handler.py:294-295 | dropping the first two characters gives the test id back, and every `s_` payload is a share payload |
| Quiz.Recorded | main.py:462-463 | the answer map holds exactly the questions answered so far, with their answers |
| Quiz.QuizSession.constructor | start_handler.py:706-708 | a fresh session: no answers, question 0 |
| Quiz.QuizSession.Finished | main.py:406-411 | the quiz ends exactly when every question is answered |
| Quiz.QuizSession.Answer | main.py:453-468 | the answer goes in at the cursor and the cursor advances by one; a payload that does not parse changes nothing |
| Quiz.AnswerAll | main.py:592-607 | answering through the buttons records every choice, and the session finishes exactly after fifteen answers |
| Quiz.QuestionScreen | main.py:401-418 | the end screen exactly at or past the question count; otherwise the question with one button per option |
| Quiz.PressedButtonRecorded | main.py:417-418 | a pressed button records its own position |
| Quiz.UserData.constructor | start_handler.py:286 | a user starts with no conversation state |
| Quiz.UserData.Clear | start_handler.py:286 | `user_data.clear()` drops every piece of state |
| Quiz.UserData.BeginTaking | start_handler.py:706-708 | taking a test starts a fresh session for that test and leaves the rest alone |
| Quiz.CreateTestStart | main.py:368-399 | creating a test starts a fresh session exactly when the gate lets the user through |
| Quiz.OwnerRowsOf | main.py:485-491 | one owner row per recorded answer |
| Quiz.OwnerRowsRoundTrip | main.py:618 | scoring reads back exactly the answers the creator gave |
| Quiz.OwnerAnswers | main.py:618 | the owner map's keys are exactly the questions of the rows |
| Quiz.Matches | main.py:621 | the matched questions are those the taker answered as the owner did; a missing owner answer never matches |
| Quiz.Percentage | main.py:623 | the truncated percentage, and None exactly where Python divides by zero |
| Quiz.ScoreBounded | main.py:621-623 | no answers raise; otherwise the score lies in 0..100 |
| Quiz.ScoreExtremes | main.py:621-623 | matching everywhere scores 100; matching nowhere scores 0 |
| Quiz.FullQuizScore | main.py:621-623 | a fifteen-answer quiz scores `(100 * correct) div 15` |
| Quiz.RecordedSize | main.py:622 | one map entry per answer given |
| Quiz.BandOf | main.py:635-646 | best friend from 80, close friend from 60, friend from 40, acquaintance below |
| Quiz.BandMonotone | main.py:635-646 | a higher score never lands in a lower band |
| Quiz.ResultTable.Record | main.py:609-632 | a scored quiz appends one result row and returns score and band; no answers or a failure change nothing |
| Quiz.TakenTwice | main.py:632 | results are inserted, never upserted: taking a test twice leaves two rows |
| Translations.LevelBandAgrees | translations.py:9-84 | the level message bands scores exactly as the result screen does |
| Translations.LevelTitle | translations.py:28-107 | every band has a title in every language |
| Translations.TitlesDistinct | translations.py:28-107 | titles tell the bands apart in every language |
| Translations.FriendshipLevelMessage | translations.py:3-113 | returns a pair of title and one of the band's three texts |
| Translations.LevelMessageFacts | translations.py:110-113 | the title and the text share the score's band, and an unknown language gets English |
| Translations.BoundaryTitles | translations.py:9-107 | the English titles at the band boundaries |
| StreakActions.StreakMessageOf | streak_actions.py:64-129 | the message is in the language's templates with the given quote |
| StreakActions.MessageKinds | streak_actions.py:111-123 | milestone days get their own template; other days below 7 get the day-3 template; other days from 7 get the generic text |
| StreakActions.TemplateHasOneThree | streak_actions.py:115 | the only 3 in the day-3 template is the day itself |
| StreakActions.ReplaceInTemplate | streak_actions.py:115 | replacing 3 rewrites the day and also every 3 in the quote |
| StreakActions.EarlyDayText | streak_actions.py:114-115 | an early non-milestone day, 0 and below included, shows the day-3 template with its own number |
| StreakActions.QuoteDigitRewritten | streak_actions.py:115 | a 3 inside the quote is rewritten too |
| StreakActions.CallToAction | streak_actions.py:125-127 | the call to action is appended exactly when asked and the day is at most 3 or one of 7, 14, 30, 50, 100 |
| StreakActions.StreakMessageFallback | streak_actions.py:66 | an unknown language reads exactly as English |
| StreakActions.InteractionLog.constructor | streak_actions.py:132-147 | an empty interaction log |
| StreakActions.InteractionLog.Log | streak_actions.py:132-147 | appends one row with stringified ids and `data or {}`; a failure is swallowed and nothing is written |
| StreakActions.LoggedIdsReadBack | streak_actions.py:137-138 | the stored ids parse back to the logged users |
| StreakActions.IdPayloadRoundTrip | streak_actions.py:552-568 | a payload ending in an id gives the id back, whatever the prefix |
| StreakActions.FriendActionPayload | friendship_streaks.py:581 | friend-picker payloads start with `streak_friend_` |
| StreakActions.GuessPayloadRoundTrip | streak_actions.py:494-497 | the guess payload gives back friend and side when the side has no underscore |
| StreakActions.PairRowPlaced | friendship_streaks.py:290-318 | after get-or-create the pair's row is found where the grown table holds it |
| StreakActions.TouchFacts | streak_actions.py:494-511 | a touch leaves one row of the pair advanced to today and changes no other row |
| StreakActions.TouchTwiceSameDay | streak_actions.py:494-511 | two streak actions on the same day leave the table as one does |
| StreakActions.Touch | streak_actions.py:494-511 | get-or-create, update, log: the table, the days and the log as the three calls leave them |
| StreakActions.GuessAnswer | streak_actions.py:485-521 | the streak is touched whatever the guess and one `guess` interaction with `{"correct": ...}` is logged; the reply tells a right guess; no row means 0 days and nothing written |
| StreakActions.WeeklyYes | streak_actions.py:560-590 | touches the streak of the friend in the payload, logs one `weekly_checkin` with `{"talked": true}` and reports its days; 0 and nothing written without a row |
| StreakActions.DailyAnswer | streak_actions.py:256-305 | touches the streak with the chosen friend and logs the answer |
| StreakActions.FirstTestOf | streak_actions.py:616-618 | the first test the friend owns, if any |
| StreakActions.QuizRetake | streak_actions.py:606-635 | a retake starts a fresh session on the friend's test with the retake flag |
| StartFlow.RouteOf | start_handler.py:289-298 | streak links first, then `s_` links with the id after two characters, then the menu |
| StartFlow.StreakPayload | start_handler.py:438 | a streak link starts with `streak_` |
| StartFlow.RouteRoundTrips | start_handler.py:384-386 | both kinds of link reach their handler with what was put in them, and the sender parses back |
| StartFlow.Start | start_handler.py:280-372 | `/start` clears the state and routes the payload; without a link a known user gets the menu, an unknown user is saved with uz (premium off) and asked for a language, and a failed lookup asks for a language without saving |
| StartFlow.HandleStreakLink | start_handler.py:375-494 | a bad payload is an error; your own link is refused, and a failed get-or-create is an error, with nothing written; otherwise one get-or-create, one update and one log entry |
| StartFlow.RetakeIgnoresResults | streak_actions.py:616-629 | for a test the user already has a result for, `/start` stops at the old score while a retake starts a fresh session |
| StartFlow.LinkTwiceSameDay | start_handler.py:406-415 | clicking a link twice on a day changes the table once |
| StartFlow.Users.constructor | start_handler.py:78-95 | an empty user table |
| StartFlow.Users.Save | start_handler.py:78-95 | the upsert writes the language and resets premium to off; a failure is swallowed |
| StartFlow.Users.SetLanguage | start_handler.py:145 | the update rewrites the language of an existing row only, and leaves premium alone |
| StartFlow.FirstTestById | start_handler.py:535-565 | the first test with the id, or None exactly when there is none |
| StartFlow.FirstResult | start_handler.py:621-623 | the score of the user's first result for the test, or None exactly when there is none |
| StartFlow.StartedExactly | start_handler.py:563-708 | a session starts exactly for an existing test that is not the user's own and has no result of the user |
| StartFlow.AlreadyTakenShowsScore | start_handler.py:621-703 | an earlier result is reported with the first result's score and never retaken; the band is shown on the direct path and not after a language choice (start_handler.py:176-201) |
| StartFlow.PendingPathSkipsOwnerCheck | start_handler.py:161-209 | after the language choice an owner is not refused their own test |
| StartFlow.StartTakingTest | start_handler.py:496-723 | an unknown user (or a failed lookup) is saved with uz and premium off, and the test waits as pending; otherwise the checks decide and only a pass starts a session |
| StartFlow.LanguageSelected | start_handler.py:132-209 | the update writes the language only for a user with a row; when it raises, the user is saved again with premium off; the pending test is popped and, if present, checked and started |
| StartFlow.NewUserByTestLink | start_handler.py:509-531 | a new user is asked for a language, and the pending test is used once |
| Balance.PlansFacts | balance.py:18-23 | exactly four plans, and a longer plan never costs less |
| Balance.PeriodName | balance.py:298-320 | an unknown plan key names itself |
| Balance.PeriodNameFacts | balance.py:298-320 | every plan has its own name, and an unknown language reads as English |
| Balance.SelectPlan | balance.py:399-403 | a payload selects a plan exactly when the text without every `subscribe_` is a plan key |
| Balance.SelectPlanRoundTrip | balance.py:399-403 | every plan button selects its own plan and price |
| Balance.RepeatedPrefixAccepted | balance.py:399 | a repeated prefix still selects the plan, because every occurrence is removed |
| Balance.FormatThousandsValue | balance.py:410 | `f"{n:,}"` without its commas reads back as n |
| Balance.FormatThousandsGroups | balance.py:410 | a leading group of 1 to 3 digits, then groups of exactly three |
| Balance.PricesShown | balance.py:435 | the four prices as shown, 140000 as "140,000" |
| Balance.PremiumTable.constructor | balance.py:469-487 | an empty premium table |
| Balance.PremiumTable.Activate | balance.py:469-487 | sets the flag and the expiry and reports True; a failure changes nothing and reports False |
| Balance.ActivateThenShow | balance.py:334-351 | after activation the premium screen is the "already premium" one |
| Broadcast.Escape | friends_message.py:40-45 | eighteen replaces in order give the per-character escaping |
| Broadcast.EscapeStep | friends_message.py:43-44 | one more replace escapes one more character and never doubles an escape |
| Broadcast.EscapedLength | friends_message.py:42-45 | the length grows by one per reserved character |
| Broadcast.UnescapeEscape | friends_message.py:42-45 | removing the added backslashes gives the text back, so other characters stay in order |
| Broadcast.RecipientOf | friends_message.py:30-34 | a missing name becomes "Friend" and a missing language "en" |
| Broadcast.FetchUsers | friends_message.py:24-38 | one recipient per row in order; nothing when the query fails |
| Broadcast.GenerateMessage | friends_message.py:47-101 | the language's message, English for any other language, with the escaped name |
| Broadcast.MessageCarriesName | friends_message.py:49 | the embedded name reads back as the recipient's name |
| Broadcast.NumBatches | friends_message.py:154 | `(n + 99) // 100` is the ceiling of n / 100 |
| Broadcast.BatchesPartition | friends_message.py:151-154 | consecutive slices of at most 100 hold every user once, in order, in `ceil(n/100)` batches |
| Broadcast.SuccessesBounded | friends_message.py:161-171 | successes never exceed the users sent |
| Broadcast.SendToAll | friends_message.py:138-179 | every user adds one to successful or to failed, a raising batch adds its size to failed, and successful counts the successes |
| Broadcast.LanguageTally | friends_message.py:236-242 | per-language counts, with everything else under other, summing to the number of users |
| Admin.TodayStartFacts | admin.py:37 | today starts at the last midnight UTC, at most a day before now |
| Admin.CreatedSinceExactly | admin.py:39-41 | the query keeps exactly the rows created since the start of today |
| Admin.IdsMembers | admin.py:43-49 | the collected ids are exactly those of the rows |
| Admin.TodaysActiveUsers | admin.py:35-53 | over the whole tables and the current time: the number of distinct users with a row created since the start of today; a failure gives 0 |
| Admin.ActiveExactly | admin.py:37-49 | a user is counted exactly when some table has a row of theirs created today |
| Admin.ActiveInExactly | admin.py:39-49 | one table's query contributes exactly its users with a row created today |
| Admin.EarlierRowsIgnored | admin.py:37-41 | a row created before today changes no count |
| Admin.ActiveCountBounds | admin.py:43-50 | the count is at least each table's distinct users today and at most the number of today's rows |
| Admin.CountedOnce | admin.py:43-49 | a user in several tables, or several times in one, is counted once |
| Admin.NoRowsNoOne | admin.py:43-50 | empty tables count no one |

## Left out

- Telegram transport is not modelled: messages, edits, keyboards, chat actions, `asyncio.sleep`, HTML and the text of every translation. Handlers take the payload and `user_data` as inputs.
- The generative-model calls and JSON parsing are foreign code. Only the validation of an already-parsed record is modelled.
- The database client and its filter syntax are replaced by in-memory tables. The `test_results` table is given in the weekly query's order (score descending, then `created_at` ascending); `Leaderboard.WeeklyQuery` applies the week filter and the limit of 50 to it. The streak query's order is a precondition. Races between concurrent `get_or_create_streak` calls are out of scope.
- Concurrency is out of scope: `asyncio.gather`, aiohttp sending and the connection limits. Per-user send results are an input.
- Floating point is left out: average scores, the broadcast success rate and the float prices. The quiz percentage is integer division, which equals the float truncation for 15 answers.
- Dates and times are integer day numbers, or seconds since the epoch in `Admin` and for the weekly board's `created_at`. ISO parsing, the `Z` replacement and time zones are not modelled.
- Calendar-month addition for the premium expiry is library code. `Balance.PremiumTable.Activate` takes the expiry as computed.
- Random choices are parameters: the quote, the drawn guess side, the encouraging text and the question of the day. URL encoding of share texts is left out.
- `share.py` is not part of this model. Its `ref_` payload is never parsed by `/start`.
- `config.py` is not part of this model. Its free limits (50 and 3) are not used by any gate in the modelled code, which uses main.py's own 5 and 1. Its `TEST_OPTIONS_PER_QUESTION = 4` does not match the question bank (4 to 7 options).
- The remember-friend, ping and guess-game start handlers only send messages and are left out. The weekly "no" handler is left out for the same reason.
- main.py's own `start`, `start_taking_test` and `language_selected` are left out (main.py:175-238, 520-552). They duplicate start_handler.py without the own-test and already-taken checks.
- Common.PyInt does not accept underscores between digits ("1_000") or non-ASCII digits, which Python's `int()` does. No payload the bot builds contains either.
- Quiz.IntOf: a JSON float is held as the real number it denotes, not as the nearest double. A decimal text that rounds to a different double (for example `31.99999999999999999`, which parses as 32.0) is not modelled.
- StartFlow.Users keeps only the language and premium columns of `friends_users`. The names, username and `created_at` that `save_user` also writes are not modelled.
- The admin dashboard that `/start` shows an admin is message text and is left out.
- Admin.TodaysActiveUsers takes each table's rows as a list. A query whose `data` is None is passed as the empty list, which is what `result.data or []` makes of it.
- StreakActions.StreakMessageOf: milestone and generic messages are tags, not texts. Only the day-3 template is spelt out, because its `replace("3", ...)` is the one text operation with a rule.
- Translations.FriendshipLevelMessage: the encouraging text is the band, language and index of the choice, not the text itself.
- Quiz.OptionCounts: question and option texts are reduced to the option counts per question.
- Quiz.ResultTable.Record does not store `created_at`.
- StreakActions.DailyAnswer takes the friend and the question as given. The handler reads both from `user_data` with `.get`, so either may be None there. That case is not modelled.
- The streak board's "your rank" line (leaderboard.py:248) is dead for the same reason as the weekly one under Findings. `Leaderboard.StreakRank` and `Leaderboard.StreakBoardShape` together bound that rank by 10. Only the weekly line gets a corrected member.

## Findings

| source | as written | input that shows it | evidently intended | confidence | as-written member | corrected member |
|---|---|---|---|---|---|---|
| leaderboard.py:229-232 | the "your rank" line is added when the rank found on the weekly board is above 10, but that board holds at most 10 lines (line 80), so the rank is at most 10 | any week's results, e.g. twelve users, where the user ranks 12th: the lookup over the ten-line board gives 0 and nothing is shown | a user outside the top ten sees their rank in the full ranking of the week's best scores | not executed | Leaderboard.WeeklyRankLineNeverShown | Leaderboard.YourWeeklyRankShown |
