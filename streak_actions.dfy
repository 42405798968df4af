/** The streak interactions: the message that announces a streak, the interaction
    log, the payloads of the friend-action buttons, and the handlers that touch a
    pair's streak (the guess game, the weekly check-in, the daily question) or
    restart a friend's quiz. */
module StreakActions {
  import opened Common
  import opened FriendshipStreaks
  import opened Quiz

  // ---------------------------------------------------------------------------
  // The streak message

  /** The days with a template of their own. */
  const Milestones: set<int> := {1, 2, 3, 7, 14, 30, 50, 100}

  /** The milestones past the first three days, which also earn the call to action. */
  const LaterMilestones: set<int> := {7, 14, 30, 50, 100}

  /** The text of the day-3 template before the day number. */
  function EarlyHead(l: Lang): string
  {
    match l
    case Uz => "🔥 <b>Ajoyib!</b>\n\n🔥 "
    case Ru => "🔥 <b>Отлично!</b>\n\n🔥 День "
    case En => "🔥 <b>Awesome!</b>\n\n🔥 Day "
  }

  /** The text of the day-3 template between the day number and the quote. */
  function EarlyMid(l: Lang): string
  {
    match l
    case Uz => "-kun\n\n💭 <i>"
    case Ru => "\n\n💭 <i>"
    case En => "\n\n💭 <i>"
  }

  /** The day-3 template with the day number written as `day`. */
  function EarlyTemplate(l: Lang, day: string, quote: string): string
  {
    EarlyHead(l) + day + EarlyMid(l) + quote + "</i>"
  }

  /** The body of a streak message: a milestone's own template, the day-3 template
      rewritten for another early day, or the generic "N in a row" text. */
  datatype Body = Milestone(day: int) | Early(text: string) | InARow(day: int)

  datatype StreakMessage = StreakMessage(lang: Lang, quote: string, body: Body, cta: bool)

  /** `get_streak_message(days, lang, include_cta)` with the random quote given. */
  function StreakMessageOf(days: int, code: string, quote: string, includeCta: bool): (m: StreakMessage)
    ensures m.lang == LangOf(code) && m.quote == quote
  {
    var l := LangOf(code);
    var body :=
      if days in Milestones then Milestone(days)
      else if days < 7 then Early(ReplaceChar(EarlyTemplate(l, "3", quote), '3', IntToString(days)))
      else InARow(days);
    StreakMessage(l, quote, body, includeCta && (days <= 3 || days in LaterMilestones))
  }

  /** Exactly the milestone days get their own template, and every other day from 7
      on gets the generic text. */
  lemma MessageKinds(days: int, code: string, quote: string, includeCta: bool)
    ensures StreakMessageOf(days, code, quote, includeCta).body.Milestone? <==> days in Milestones
    ensures StreakMessageOf(days, code, quote, includeCta).body.InARow? <==> days >= 7 && days !in Milestones
    ensures StreakMessageOf(days, code, quote, includeCta).body.Early? <==> days < 7 && days !in Milestones
  {
  }

  /** The fixed parts of the day-3 template hold no digit 3 but the day itself. */
  lemma TemplateHasOneThree(l: Lang)
    ensures '3' !in EarlyHead(l) && '3' !in EarlyMid(l) && '3' !in "</i>"
  {
  }

  /** Replacing the 3 in the day-3 template rewrites the day and, along with it,
      every 3 inside the quote. */
  lemma ReplaceInTemplate(l: Lang, quote: string, n: string)
    ensures ReplaceChar(EarlyTemplate(l, "3", quote), '3', n)
              == EarlyTemplate(l, n, ReplaceChar(quote, '3', n))
  {
    var h, m := EarlyHead(l), EarlyMid(l);
    TemplateHasOneThree(l);
    assert ReplaceChar("3", '3', n) == n;
    ReplaceCharAppend(h + "3" + m + quote, "</i>", '3', n);
    ReplaceCharAppend(h + "3" + m, quote, '3', n);
    ReplaceCharAppend(h + "3", m, '3', n);
    ReplaceCharAppend(h, "3", '3', n);
  }

  /** Any other early day (4 to 6, and 0 or below) reuses the day-3 template with the
      day number in place of the 3, as long as the quote itself has no digit 3 (the
      replacement runs over the whole text, quote included). */
  lemma EarlyDayText(days: int, code: string, quote: string, includeCta: bool)
    requires days < 7 && days !in Milestones
    requires '3' !in quote
    ensures StreakMessageOf(days, code, quote, includeCta).body
              == Early(EarlyTemplate(LangOf(code), IntToString(days), quote))
  {
    ReplaceInTemplate(LangOf(code), quote, IntToString(days));
  }

  /** A digit 3 in the quote is rewritten too: on day 5 the quote "3" reads "5". */
  lemma QuoteDigitRewritten()
    ensures StreakMessageOf(5, "en", "3", true).body == Early(EarlyTemplate(En, "5", "5"))
  {
    ReplaceInTemplate(En, "3", "5");
    assert ReplaceChar("3", '3', "5") == "5";
  }

  /** From the first day on, the call to action is appended exactly on milestone days
      (when asked for); at day 0 or below it is appended whenever asked for. */
  lemma CallToAction(days: int, code: string, quote: string, includeCta: bool)
    ensures days >= 1 ==> (StreakMessageOf(days, code, quote, includeCta).cta <==> includeCta && days in Milestones)
    ensures days <= 0 ==> StreakMessageOf(days, code, quote, includeCta).cta == includeCta
    ensures !includeCta ==> !StreakMessageOf(days, code, quote, includeCta).cta
  {
  }

  /** A language without its own templates reads exactly as English. */
  lemma StreakMessageFallback(days: int, code: string, quote: string, includeCta: bool)
    requires code != "uz" && code != "ru"
    ensures StreakMessageOf(days, code, quote, includeCta) == StreakMessageOf(days, "en", quote, includeCta)
  {
  }

  // ---------------------------------------------------------------------------
  // The interaction log

  /** The values an interaction's data dictionary holds. */
  datatype Value = Flag(b: bool) | Text(s: string)

  /** One row of `streak_interactions`; ids are stored as text. */
  datatype Interaction = Interaction(streakId: nat, userId: string, friendId: string, kind: string,
                                     data: map<string, Value>)

  class InteractionLog {
    var entries: seq<Interaction>

    constructor ()
      ensures entries == []
    {
      entries := [];
    }

    /** `log_interaction`: one row with stringified ids and `data or {}`; a store
        failure is swallowed and logs nothing. */
    method Log(streakId: nat, userId: int, friendId: int, kind: string, data: Option<map<string, Value>>, fault: bool)
      modifies this
      ensures fault ==> entries == old(entries)
      ensures !fault ==> entries == old(entries) + [Interaction(streakId, IntToString(userId), IntToString(friendId), kind,
                                                               if data.Some? then data.value else map[])]
    {
      if fault {
        return;
      }
      var d := if data.Some? then data.value else map[];
      entries := entries + [Interaction(streakId, IntToString(userId), IntToString(friendId), kind, d)];
    }
  }

  /** The stored ids read back as the user and friend that were logged. */
  lemma LoggedIdsReadBack(e: Interaction, userId: int, friendId: int)
    requires e.userId == IntToString(userId) && e.friendId == IntToString(friendId)
    ensures PyInt(e.userId) == Some(userId) && PyInt(e.friendId) == Some(friendId)
  {
    PyIntToString(userId);
    PyIntToString(friendId);
  }

  // ---------------------------------------------------------------------------
  // Payloads

  /** A button payload that ends in a friend's id: `streak_friend_{action}_{id}`,
      `weekly_yes_{id}`, `daily_q_answer_{id}`. */
  function IdPayload(prefix: string, id: int): (data: string)
  {
    prefix + "_" + IntToString(id)
  }

  /** `int(data.split('_')[-1])`. */
  function LastId(data: string): (id: Option<int>)
  {
    var parts := Split(data, '_');
    PyInt(parts[|parts| - 1])
  }

  /** Whatever the prefix holds (the friend actions contain underscores of their
      own), the last piece is the id. */
  lemma IdPayloadRoundTrip(prefix: string, id: int)
    ensures LastId(IdPayload(prefix, id)) == Some(id)
  {
    assert IdPayload(prefix, id) == prefix + ['_'] + IntToString(id);
    SplitLast(prefix, '_', IntToString(id));
    PyIntToString(id);
  }

  /** The friend-picker button: `streak_friend_{action}_{friend id}`. */
  function FriendActionPayload(action: string, friendId: int): (data: string)
    ensures StartsWith(data, "streak_friend_")
  {
    IdPayload("streak_friend_" + action, friendId)
  }

  /** The guess buttons: `guess_answer_{friend}_{side}`. */
  function GuessPayload(friendId: int, side: string): (data: string)
  {
    "guess_answer_" + IntToString(friendId) + "_" + side
  }

  /** `parts[2]` as an int and `parts[3]`; None where Python raises. */
  function ParseGuess(data: string): (r: Option<(int, string)>)
  {
    var parts := Split(data, '_');
    if |parts| < 4 then None
    else match PyInt(parts[2])
      case Some(f) => Some((f, parts[3]))
      case None => None
  }

  lemma GuessPayloadRoundTrip(friendId: int, side: string)
    requires '_' !in side
    ensures ParseGuess(GuessPayload(friendId, side)) == Some((friendId, side))
  {
    var n := IntToString(friendId);
    var tail := n + ['_'] + side;
    var middle := "answer" + ['_'] + tail;
    assert GuessPayload(friendId, side) == "guess" + ['_'] + middle;
    SplitNoSeparator(side, '_');
    SplitCons(n, '_', side);
    assert Split(tail, '_') == [n, side];
    SplitCons("answer", '_', tail);
    assert Split(middle, '_') == ["answer", n, side];
    SplitCons("guess", '_', middle);
    assert Split(GuessPayload(friendId, side), '_') == ["guess", "answer", n, side];
    PyIntToString(friendId);
  }

  // ---------------------------------------------------------------------------
  // Touching a pair's streak

  /** The table after `get_or_create_streak(a, b)` when the store works: unchanged
      when the pair has a row, one zeroed row longer otherwise. */
  function Grown(rows: seq<Streak>, nextId: nat, a: int, b: int, now: int): (grown: seq<Streak>)
  {
    if FindPair(rows, a, b).Some? then rows else rows + [Fresh(nextId, a, b, now)]
  }

  /** The row `get_or_create_streak(a, b)` hands back when the store works. */
  function PairRow(rows: seq<Streak>, nextId: nat, a: int, b: int, now: int): (r: Streak)
    ensures Joins(r, a, b)
  {
    match FindPair(rows, a, b)
    case Some(k) => rows[k]
    case None => Fresh(nextId, a, b, now)
  }

  /** The pair's row sits in the grown table where the pair is first found. */
  lemma PairRowPlaced(rows: seq<Streak>, nextId: nat, a: int, b: int, now: int)
    ensures FindPair(Grown(rows, nextId, a, b, now), a, b).Some?
    ensures var grown := Grown(rows, nextId, a, b, now);
            grown[FindPair(grown, a, b).value] == PairRow(rows, nextId, a, b, now)
  {
    var grown := Grown(rows, nextId, a, b, now);
    if FindPair(rows, a, b).None? {
      assert Joins(grown[|rows|], a, b);
      assert forall j :: 0 <= j < |rows| ==> grown[j] == rows[j];
    }
  }

  /** The table after get-or-create and update: the pair's row advanced to `today`,
      unless the update failed. */
  function AfterTouch(rows: seq<Streak>, nextId: nat, a: int, b: int, now: int, today: int, updateFault: bool)
    : (after: seq<Streak>)
  {
    var grown := Grown(rows, nextId, a, b, now);
    match FindPair(grown, a, b)
    case None => grown
    case Some(k) => if updateFault then grown else grown[k := Advance(grown[k], today)]
  }

  /** What a touch does to the table: the pair has a row that holds the advanced row,
      at most one row was added, and every other row is untouched. */
  lemma TouchFacts(rows: seq<Streak>, nextId: nat, a: int, b: int, now: int, today: int, updateFault: bool)
    ensures var after := AfterTouch(rows, nextId, a, b, now, today, updateFault);
            var pre := PairRow(rows, nextId, a, b, now);
            FindPair(after, a, b).Some?
            && after[FindPair(after, a, b).value] == (if updateFault then pre else Advance(pre, today))
            && |after| == |rows| + (if FindPair(rows, a, b).Some? then 0 else 1)
            && forall j :: 0 <= j < |rows| && j != FindPair(after, a, b).value ==> after[j] == rows[j]
  {
    var grown := Grown(rows, nextId, a, b, now);
    PairRowPlaced(rows, nextId, a, b, now);
    var after := AfterTouch(rows, nextId, a, b, now, today, updateFault);
    assert |after| == |grown|;
    assert forall j :: 0 <= j < |grown| ==> after[j].userId == grown[j].userId && after[j].friendId == grown[j].friendId;
    FindPairSameOwners(grown, after, a, b);
    if FindPair(rows, a, b).None? {
      assert forall j :: 0 <= j < |rows| ==> grown[j] == rows[j];
    }
  }

  /** Two streak actions on the same day leave the table as one does: the second
      finds the pair's row and the day rule writes nothing new. */
  lemma TouchTwiceSameDay(rows: seq<Streak>, nextId: nat, later: nat, a: int, b: int, now: int, today: int)
    ensures var once := AfterTouch(rows, nextId, a, b, now, today, false);
            AfterTouch(once, later, a, b, now, today, false) == once
  {
    var once := AfterTouch(rows, nextId, a, b, now, today, false);
    TouchFacts(rows, nextId, a, b, now, today, false);
    var k := FindPair(once, a, b).value;
    assert Grown(once, later, a, b, now) == once;
    AdvanceIdempotent(PairRow(rows, nextId, a, b, now), today);
    assert once[k := Advance(once[k], today)] == once;
  }

  /** Only the owners of rows decide where the pair is found. */
  lemma {:induction false} FindPairSameOwners(rows: seq<Streak>, other: seq<Streak>, a: int, b: int)
    requires |rows| == |other|
    requires forall j :: 0 <= j < |rows| ==> rows[j].userId == other[j].userId && rows[j].friendId == other[j].friendId
    ensures FindPair(rows, a, b) == FindPair(other, a, b)
    decreases |rows|
  {
    if rows != [] {
      FindPairSameOwners(rows[1..], other[1..], a, b);
    }
  }

  /** With distinct ids, the row found by pair is the row found by its id. */
  lemma FoundById(rows: seq<Streak>, k: nat)
    requires k < |rows|
    requires forall i, j :: 0 <= i < j < |rows| ==> rows[i].id != rows[j].id
    ensures FindId(rows, rows[k].id) == Some(k)
  {
    assert forall j :: 0 <= j < |rows| && j != k ==> rows[j].id != rows[k].id;
  }

  /** Get-or-create, update, log: the sequence every streak action runs. The pair's
      row is advanced to `today` (unless the update fails), and one interaction is
      logged (unless the log fails). When the row cannot be had, nothing changes and
      0 days is reported. */
  method Touch(store: StreakStore, log: InteractionLog, a: int, b: int, kind: string, data: Option<map<string, Value>>,
               now: int, today: int, createFault: bool, updateFault: bool, logFault: bool)
    returns (days: nat, touched: bool)
    requires store.Valid()
    modifies store, log
    ensures store.Valid()
    ensures touched <==> !createFault
    ensures !touched ==> (days == 0 && store.rows == old(store.rows) && store.nextId == old(store.nextId)
                          && log.entries == old(log.entries))
    ensures touched ==>
              var pre := PairRow(old(store.rows), old(store.nextId), a, b, now);
              store.rows == AfterTouch(old(store.rows), old(store.nextId), a, b, now, today, updateFault)
              && days == (if updateFault then 0 else Advance(pre, today).current)
              && log.entries == old(log.entries) + (if logFault then [] else
                                  [Interaction(pre.id, IntToString(a), IntToString(b), kind,
                                               if data.Some? then data.value else map[])])
  {
    ghost var rows0, next0 := store.rows, store.nextId;
    var streak := store.GetOrCreate(a, b, now, createFault);
    if streak.None? {
      return 0, false;
    }
    ghost var grown := store.rows;
    assert grown == Grown(rows0, next0, a, b, now);
    assert streak.value == PairRow(rows0, next0, a, b, now);
    PairRowPlaced(rows0, next0, a, b, now);
    ghost var k := FindPair(grown, a, b).value;
    FoundById(grown, k);
    days := store.Update(streak.value.id, today, updateFault);
    log.Log(streak.value.id, a, b, kind, data, logFault);
    touched := true;
  }

  // ---------------------------------------------------------------------------
  // Handlers

  /** `handle_guess_answer`: the pair's streak is touched whatever the guess; the
      reply says whether the guess matched the drawn side and how many days the
      streak has (0 without a row). A payload that does not parse raises before
      anything is touched. */
  method GuessAnswer(store: StreakStore, log: InteractionLog, user: int, data: string, drawn: string,
                     now: int, today: int, createFault: bool, updateFault: bool, logFault: bool)
    returns (reply: Option<(bool, nat)>)
    requires store.Valid()
    modifies store, log
    ensures store.Valid()
    ensures ParseGuess(data).None? ==> reply.None? && store.rows == old(store.rows) && store.nextId == old(store.nextId)
                                       && log.entries == old(log.entries)
    ensures ParseGuess(data).Some? ==> reply.Some? && reply.value.0 == (ParseGuess(data).value.1 == drawn)
    ensures ParseGuess(data).Some? && createFault ==>
              reply == Some((ParseGuess(data).value.1 == drawn, 0))
              && store.rows == old(store.rows) && store.nextId == old(store.nextId) && log.entries == old(log.entries)
    ensures ParseGuess(data).Some? && !createFault ==>
              var friend := ParseGuess(data).value.0;
              var pre := PairRow(old(store.rows), old(store.nextId), user, friend, now);
              store.rows == AfterTouch(old(store.rows), old(store.nextId), user, friend, now, today, updateFault)
              && reply.value.1 == (if updateFault then 0 else Advance(pre, today).current)
              && log.entries == old(log.entries) + (if logFault then [] else
                   [Interaction(pre.id, IntToString(user), IntToString(friend), "guess",
                                map["correct" := Flag(ParseGuess(data).value.1 == drawn)])])
  {
    var parsed := ParseGuess(data);
    if parsed.None? {
      return None;
    }
    var friend := parsed.value.0;
    var correct := parsed.value.1 == drawn;
    var days, touched := Touch(store, log, user, friend, "guess", Some(map["correct" := Flag(correct)]),
                               now, today, createFault, updateFault, logFault);
    return Some((correct, days));
  }

  /** `handle_weekly_yes`: touches the pair's streak and reports its days (0 without a
      row); the friend id is the payload's last piece. */
  method WeeklyYes(store: StreakStore, log: InteractionLog, user: int, data: string,
                   now: int, today: int, createFault: bool, updateFault: bool, logFault: bool)
    returns (days: Option<nat>)
    requires store.Valid()
    modifies store, log
    ensures store.Valid()
    ensures LastId(data).None? ==> days.None? && store.rows == old(store.rows) && store.nextId == old(store.nextId)
                                   && log.entries == old(log.entries)
    ensures LastId(data).Some? && createFault ==>
              days == Some(0) && store.rows == old(store.rows) && store.nextId == old(store.nextId)
              && log.entries == old(log.entries)
    ensures LastId(data).Some? && !createFault ==>
              var friend := LastId(data).value;
              var pre := PairRow(old(store.rows), old(store.nextId), user, friend, now);
              days == Some(if updateFault then 0 else Advance(pre, today).current)
              && store.rows == AfterTouch(old(store.rows), old(store.nextId), user, friend, now, today, updateFault)
              && log.entries == old(log.entries) + (if logFault then [] else
                   [Interaction(pre.id, IntToString(user), IntToString(friend), "weekly_checkin",
                                map["talked" := Flag(true)])])
  {
    var friend := LastId(data);
    if friend.None? {
      return None;
    }
    var d, touched := Touch(store, log, user, friend.value, "weekly_checkin", Some(map["talked" := Flag(true)]),
                            now, today, createFault, updateFault, logFault);
    return Some(d);
  }

  /** `handle_daily_question_answer_text`: touches the streak with the friend chosen
      earlier and logs the question and answer; without a row the reply is an error
      (None). */
  method DailyAnswer(store: StreakStore, log: InteractionLog, user: int, friend: int, question: string, answer: string,
                     now: int, today: int, createFault: bool, updateFault: bool, logFault: bool)
    returns (days: Option<nat>)
    requires store.Valid()
    modifies store, log
    ensures store.Valid()
    ensures createFault ==> days.None? && store.rows == old(store.rows) && store.nextId == old(store.nextId)
                            && log.entries == old(log.entries)
    ensures !createFault ==>
              var pre := PairRow(old(store.rows), old(store.nextId), user, friend, now);
              days == Some(if updateFault then 0 else Advance(pre, today).current)
              && store.rows == AfterTouch(old(store.rows), old(store.nextId), user, friend, now, today, updateFault)
              && log.entries == old(log.entries) + (if logFault then [] else
                   [Interaction(pre.id, IntToString(user), IntToString(friend), "daily_question",
                                map["question" := Text(question), "answer" := Text(answer)])])
  {
    var d, touched := Touch(store, log, user, friend, "daily_question",
                            Some(map["question" := Text(question), "answer" := Text(answer)]),
                            now, today, createFault, updateFault, logFault);
    if !touched {
      return None;
    }
    return Some(d);
  }

  /** A row of the `tests` table. */
  datatype TestRow = TestRow(id: string, owner: int)

  /** The first test a user owns. */
  function FirstTestOf(tests: seq<TestRow>, owner: int): (t: Option<string>)
    ensures t.Some? <==> exists k :: 0 <= k < |tests| && tests[k].owner == owner
    ensures t.Some? ==> exists k :: 0 <= k < |tests| && tests[k].owner == owner && tests[k].id == t.value
                          && forall j :: 0 <= j < k ==> tests[j].owner != owner
    decreases |tests|
  {
    if tests == [] then None
    else if tests[0].owner == owner then Some(tests[0].id)
    else
      var rest := FirstTestOf(tests[1..], owner);
      assert forall k :: 0 <= k < |tests| - 1 ==> tests[1..][k] == tests[k + 1];
      rest
  }

  /** `handle_quiz_retake`: restarts the friend's first test from question 0 with the
      retake flag set. Unlike the `/start` path it does not look for an existing
      result. Without a test, or when the lookup fails, nothing changes. */
  method QuizRetake(ud: UserData, data: string, tests: seq<TestRow>, fault: bool) returns (started: bool)
    modifies ud
    ensures started <==> !fault && LastId(data).Some? && FirstTestOf(tests, LastId(data).value).Some?
    ensures started ==> ud.takingTest == FirstTestOf(tests, LastId(data).value) && ud.isRetake
                        && fresh(ud.taking) && ud.taking.Valid() && ud.taking.given == []
    ensures !started ==> ud.takingTest == old(ud.takingTest) && ud.taking == old(ud.taking) && ud.isRetake == old(ud.isRetake)
    ensures ud.creating == old(ud.creating) && ud.pendingTest == old(ud.pendingTest)
  {
    var friend := LastId(data);
    if friend.None? || fault {
      return false;
    }
    var test := FirstTestOf(tests, friend.value);
    if test.None? {
      return false;
    }
    ud.BeginTaking(test.value);
    ud.isRetake := true;
    return true;
  }
}
