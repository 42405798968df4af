/** The friendship quiz: the free-tier gates, birthday validation, the question
    bank's option counts, a quiz session that records one answer per question,
    the callback payloads that carry answers and test ids, and the scoring of a
    finished quiz into a percentage and a friendship band. */
module Quiz {
  import opened Common

  // ---------------------------------------------------------------------------
  // Free tier

  const FreeBirthdayLimit: nat := 5
  const FreeTestLimit: nat := 1

  /** `is_user_premium`: the row's `is_premium` flag when a row exists and the flag is
      true; False for a missing row, a NULL flag or a store failure. */
  function IsPremium(flag: Option<Option<bool>>, fault: bool): (premium: bool)
    ensures premium <==> !fault && flag == Some(Some(true))
  {
    !fault && flag.Some? && flag.value.Some? && flag.value.value
  }

  /** The gate in front of adding a birthday or creating a test. */
  predicate Refused(premium: bool, count: nat, limit: nat)
  {
    !premium && count >= limit
  }

  /** Premium users are never refused; a free user is refused from the limit on; and
      since a failed count reads as 0, a store failure never refuses anyone. */
  lemma GateFacts(premium: bool, count: nat, limit: nat, stored: Option<nat>)
    ensures premium ==> !Refused(premium, count, limit)
    ensures !premium ==> (Refused(premium, count, limit) <==> count >= limit)
    ensures Refused(premium, count, limit) ==> Refused(premium, count + 1, limit)
    ensures limit > 0 ==> !Refused(premium, CountOrZero(stored, true), limit)
  {
  }

  // ---------------------------------------------------------------------------
  // Birthday validation

  /** The JSON values a parsed birthday record can hold. A finite number with a
      fraction or an exponent is a float (held as its value); `json.loads` also
      reads `NaN`, `Infinity` and `-Infinity`, which are `JNonFinite`. */
  datatype Json = JNull | JBool(b: bool) | JInt(i: int) | JFloat(x: real) | JNonFinite | JStr(s: string)
                | JList(items: seq<Json>) | JObject(fields: map<string, Json>)

  /** `int(x)` on a finite float: the fraction is dropped, toward zero. */
  function Truncate(x: real): (n: int)
    ensures x >= 0.0 ==> 0 <= n && n as real <= x < n as real + 1.0
    ensures x < 0.0 ==> n <= 0 && n as real - 1.0 < x <= n as real
  {
    if x >= 0.0 then x.Floor else -((-x).Floor)
  }

  /** Python's `int(v)` on a JSON value: integers as they are, booleans as 0 or 1,
      finite floats truncated toward zero, strings by their decimal digits after
      stripping whitespace; anything else raises (NaN and the infinities included). */
  function IntOf(v: Json): (r: Option<int>)
    ensures v.JInt? ==> r == Some(v.i)
    ensures v.JFloat? && v.x >= 0.0 ==> r.Some? && 0 <= r.value && r.value as real <= v.x < r.value as real + 1.0
    ensures v.JFloat? && v.x < 0.0 ==> r.Some? && r.value <= 0 && r.value as real - 1.0 < v.x <= r.value as real
    ensures v.JNull? || v.JNonFinite? || v.JList? || v.JObject? ==> r.None?
  {
    match v
    case JInt(i) => Some(i)
    case JBool(b) => Some(if b then 1 else 0)
    case JFloat(x) => Some(Truncate(x))
    case JStr(s) => PyInt(s)
    case _ => None
  }

  /** The validation step of `parse_birthday_with_ai`: a non-empty object with `name`,
      `day` and `month`, whose day and month convert to integers in 1..31 and 1..12;
      the record is returned as it is. Anything else (including a conversion that
      raises) is None. */
  function ValidBirthday(v: Json): (r: Option<map<string, Json>>)
    ensures r.Some? <==>
              v.JObject? && "name" in v.fields && "day" in v.fields && "month" in v.fields
              && IntOf(v.fields["day"]).Some? && IntOf(v.fields["month"]).Some?
              && 1 <= IntOf(v.fields["day"]).value <= 31 && 1 <= IntOf(v.fields["month"]).value <= 12
    ensures r.Some? ==> r.value == v.fields
  {
    if v.JObject? && v.fields != map[] && "name" in v.fields && "day" in v.fields && "month" in v.fields then
      match (IntOf(v.fields["day"]), IntOf(v.fields["month"]))
      case (Some(day), Some(month)) =>
        if 1 <= day <= 31 && 1 <= month <= 12 then Some(v.fields) else None
      case _ => None
    else None
  }

  /** A float day or month is truncated before the range check: 31.9 February is
      accepted as day 31, while a day of 0.5 becomes 0 and -0.5 becomes 0, both
      rejected, and a day of NaN raises. */
  lemma FloatFieldsTruncated()
    ensures ValidBirthday(JObject(map["name" := JStr("Ali"), "day" := JFloat(31.9), "month" := JFloat(2.0)])).Some?
    ensures ValidBirthday(JObject(map["name" := JStr("Ali"), "day" := JFloat(0.5), "month" := JInt(2)])).None?
    ensures ValidBirthday(JObject(map["name" := JStr("Ali"), "day" := JFloat(-0.5), "month" := JInt(2)])).None?
    ensures ValidBirthday(JObject(map["name" := JStr("Ali"), "day" := JNonFinite, "month" := JInt(2)])).None?
  {
    assert Truncate(31.9) == 31;
    assert Truncate(2.0) == 2;
    assert Truncate(-0.5) == 0;
  }

  /** There is no per-month check: 31 February is accepted. */
  lemma ThirtyFirstOfFebruaryAccepted()
    ensures ValidBirthday(JObject(map["name" := JStr("Ali"), "day" := JInt(31), "month" := JInt(2)])).Some?
  {
  }

  // ---------------------------------------------------------------------------
  // The question bank

  const QuestionCount: nat := 15

  /** How many options each of the fifteen questions offers, per language. */
  function OptionCounts(l: Lang): (counts: seq<nat>)
    ensures |counts| == QuestionCount
    ensures forall i :: 0 <= i < |counts| ==> 4 <= counts[i] <= 7
  {
    match l
    case Uz => [7, 4, 5, 6, 6, 6, 6, 5, 6, 6, 6, 5, 4, 6, 6]
    case Ru => [7, 4, 5, 5, 6, 6, 6, 5, 6, 6, 6, 6, 5, 6, 6]
    case En => [6, 4, 5, 6, 6, 6, 6, 5, 6, 6, 6, 6, 5, 6, 6]
  }

  /** `get_questions(lang)`, reduced to its option counts: a language without a bank
      gets the English one. */
  function QuestionsFor(code: string): (counts: seq<nat>)
    ensures code != "uz" && code != "ru" ==> counts == OptionCounts(En)
  {
    OptionCounts(LangOf(code))
  }

  /** The banks disagree on option counts, so an answer index valid for a question in
      one language can be out of range for it in another. */
  lemma OptionCountsDiffer()
    ensures OptionCounts(Uz)[0] == 7 && OptionCounts(En)[0] == 6
    ensures OptionCounts(Uz)[12] == 4 && OptionCounts(En)[12] == 5
    ensures OptionCounts(Uz) != OptionCounts(En) && OptionCounts(Ru) != OptionCounts(En)
  {
    assert OptionCounts(Ru)[3] != OptionCounts(En)[3];
  }

  // ---------------------------------------------------------------------------
  // Payloads

  const CreatorAnswerPrefix: string := "test_answer_"
  const TakerAnswerPrefix: string := "taking_answer_"

  /** The callback data of the button for option `i`. */
  function AnswerPayload(prefix: string, i: int): (data: string)
  {
    prefix + IntToString(i)
  }

  /** The buttons of a question with `n` options, in order. */
  function Buttons(prefix: string, n: nat): (bs: seq<string>)
    ensures |bs| == n
    ensures forall i :: 0 <= i < n ==> bs[i] == AnswerPayload(prefix, i)
  {
    seq(n, i => AnswerPayload(prefix, i))
  }

  /** `int(data.split('_')[2])`: None where Python raises (fewer than three pieces,
      or a third piece that is not an integer). */
  function ParseAnswer(data: string): (r: Option<int>)
  {
    var parts := Split(data, '_');
    if |parts| < 3 then None else PyInt(parts[2])
  }

  /** Every answer button reads back as its own option index. */
  lemma AnswerPayloadRoundTrip(i: int)
    ensures ParseAnswer(AnswerPayload(CreatorAnswerPrefix, i)) == Some(i)
    ensures ParseAnswer(AnswerPayload(TakerAnswerPrefix, i)) == Some(i)
  {
    assert '_' !in "test" && CreatorAnswerPrefix == "test" + "_answer_" by {
      assert "test" + "_answer_" == "test_answer_";
    }
    AnswerRoundTripAfter(CreatorAnswerPrefix, "test", i);
    assert '_' !in "taking" && TakerAnswerPrefix == "taking" + "_answer_" by {
      assert "taking" + "_answer_" == "taking_answer_";
    }
    AnswerRoundTripAfter(TakerAnswerPrefix, "taking", i);
  }

  /** `<word>_answer_<i>` reads back as `i` when the word has no underscore. */
  lemma AnswerRoundTripAfter(prefix: string, word: string, i: int)
    requires '_' !in word && prefix == word + "_answer_"
    ensures ParseAnswer(AnswerPayload(prefix, i)) == Some(i)
  {
    var s := IntToString(i);
    var data := AnswerPayload(prefix, i);
    assert data == word + ['_'] + ("answer" + ['_'] + s);
    SplitNoSeparator(s, '_');
    SplitCons("answer", '_', s);
    SplitCons(word, '_', "answer" + ['_'] + s);
    assert Split(data, '_') == [word, "answer", s];
    PyIntToString(i);
  }

  /** The deep-link payload of a test's share link, and its inverse used by `/start`
      (drop the first two characters). */
  function SharePayload(testId: string): (p: string)
    ensures StartsWith(p, "s_")
    ensures |p| == |testId| + 2
  {
    "s_" + testId
  }

  function TestIdOf(payload: string): (testId: string)
    requires |payload| >= 2
    ensures |testId| == |payload| - 2
  {
    payload[2..]
  }

  lemma {:induction false} SharePayloadRoundTrip(testId: string)
    ensures TestIdOf(SharePayload(testId)) == testId
    ensures forall p :: StartsWith(p, "s_") ==> SharePayload(TestIdOf(p)) == p
  {
    forall p | StartsWith(p, "s_") ensures SharePayload(TestIdOf(p)) == p {
      assert p == p[..2] + p[2..];
    }
  }

  // ---------------------------------------------------------------------------
  // A session

  /** The answers given so far, keyed by question index. */
  function Recorded(given: seq<int>): (answers: map<int, int>)
    ensures forall q :: q in answers <==> 0 <= q < |given|
    ensures forall q :: 0 <= q < |given| ==> answers[q] == given[q]
  {
    map q | 0 <= q < |given| :: given[q]
  }

  /** The quiz state kept in `user_data`: the answer dictionary and the current
      question index (`test_answers`/`current_question` while creating a test,
      `taking_test_answers`/`taking_test_question` while taking one). */
  class QuizSession {
    var answers: map<int, int>
    var question: int
    ghost var given: seq<int>

    ghost predicate Valid()
      reads this
    {
      question == |given| && answers == Recorded(given)
    }

    /** A fresh session: no answers, first question. */
    constructor ()
      ensures Valid() && given == [] && answers == map[] && question == 0
    {
      answers := map[];
      question := 0;
      given := [];
    }

    /** The question screen's test: every question has been answered. */
    function Finished(): (done: bool)
      reads this
      requires Valid()
      ensures done <==> |given| >= QuestionCount
    {
      question >= QuestionCount as int
    }

    /** `test_answer`/`taking_test_answer`: the option index is read from the callback
        data; it is stored under the current question, and the session moves to the
        next question. Data that does not parse raises before anything is stored. */
    method Answer(data: string) returns (ok: bool)
      requires Valid()
      modifies this
      ensures Valid()
      ensures ok <==> ParseAnswer(data).Some?
      ensures ok ==> given == old(given) + [ParseAnswer(data).value]
                     && answers == old(answers)[old(question) := ParseAnswer(data).value]
                     && question == old(question) + 1
      ensures !ok ==> given == old(given) && answers == old(answers) && question == old(question)
    {
      var a := ParseAnswer(data);
      if a.None? {
        return false;
      }
      answers := answers[question := a.value];
      question := question + 1;
      given := given + [a.value];
      assert answers == Recorded(given);
      return true;
    }
  }

  /** Answering every question through its buttons, from a fresh session, finishes
      the session exactly at the fifteenth answer and records the chosen options. */
  method AnswerAll(choices: seq<int>, prefix: string) returns (s: QuizSession)
    requires prefix == CreatorAnswerPrefix || prefix == TakerAnswerPrefix
    requires |choices| <= QuestionCount
    ensures s.Valid() && s.answers == Recorded(choices)
    ensures s.Finished() <==> |choices| == QuestionCount
  {
    s := new QuizSession();
    var i := 0;
    while i < |choices|
      invariant 0 <= i <= |choices|
      invariant s.Valid() && s.given == choices[..i]
      modifies s
    {
      AnswerPayloadRoundTrip(choices[i]);
      var ok := s.Answer(AnswerPayload(prefix, choices[i]));
      assert choices[..i + 1] == choices[..i] + [choices[i]];
      i := i + 1;
    }
    assert choices[..i] == choices;
  }

  /** What the question screen shows next: the end of the quiz once every question is
      answered, otherwise the current question with one button per option of the
      bank in the user's language. */
  datatype Screen = Done | Ask(index: nat, buttons: seq<string>)

  function QuestionScreen(question: nat, code: string, prefix: string): (sc: Screen)
    ensures sc.Done? <==> question >= QuestionCount
    ensures sc.Ask? ==> sc.index == question && |sc.buttons| == QuestionsFor(code)[question]
    ensures sc.Ask? ==> forall i :: 0 <= i < |sc.buttons| ==> sc.buttons[i] == AnswerPayload(prefix, i)
  {
    var counts := QuestionsFor(code);
    if question >= |counts| then Done else Ask(question, Buttons(prefix, counts[question]))
  }

  /** The index a pressed button records is its position among the question's
      buttons; nothing compares it with the option count again, so a forged payload
      with any integer is recorded as it is. */
  lemma PressedButtonRecorded(question: nat, code: string, prefix: string, i: nat)
    requires prefix == CreatorAnswerPrefix || prefix == TakerAnswerPrefix
    requires QuestionScreen(question, code, prefix).Ask?
    requires i < |QuestionScreen(question, code, prefix).buttons|
    ensures ParseAnswer(QuestionScreen(question, code, prefix).buttons[i]) == Some(i)
  {
    AnswerPayloadRoundTrip(i);
  }

  /** The conversation state the bot keeps per user: the test being created, the
      test being taken, a test id waiting for the language choice and the retake
      flag. */
  class UserData {
    var creating: QuizSession?
    var takingTest: Option<string>
    var taking: QuizSession?
    var pendingTest: Option<string>
    var isRetake: bool

    /** `user_data.clear()`. */
    constructor ()
      ensures creating == null && takingTest.None? && taking == null && pendingTest.None? && !isRetake
    {
      creating := null;
      takingTest := None;
      taking := null;
      pendingTest := None;
      isRetake := false;
    }

    method Clear()
      modifies this
      ensures creating == null && takingTest.None? && taking == null && pendingTest.None? && !isRetake
    {
      creating := null;
      takingTest := None;
      taking := null;
      pendingTest := None;
      isRetake := false;
    }

    /** Taking `testId` from its first question: empty answers, question 0. */
    method BeginTaking(testId: string)
      modifies this
      ensures takingTest == Some(testId) && fresh(taking)
      ensures taking.Valid() && taking.given == [] && taking.answers == map[] && taking.question == 0
      ensures creating == old(creating) && pendingTest == old(pendingTest) && isRetake == old(isRetake)
    {
      takingTest := Some(testId);
      taking := new QuizSession();
    }
  }

  /** `create_test_start`: a free user at the test limit is refused and nothing is
      initialised; anyone else starts a fresh creation session. */
  method CreateTestStart(ud: UserData, premium: bool, count: nat) returns (started: bool)
    modifies ud
    ensures started <==> !Refused(premium, count, FreeTestLimit)
    ensures started ==> fresh(ud.creating) && ud.creating.Valid() && ud.creating.given == []
    ensures !started ==> ud.creating == old(ud.creating)
    ensures ud.taking == old(ud.taking) && ud.takingTest == old(ud.takingTest)
    ensures ud.pendingTest == old(ud.pendingTest) && ud.isRetake == old(ud.isRetake)
  {
    if Refused(premium, count, FreeTestLimit) {
      return false;
    }
    ud.creating := new QuizSession();
    return true;
  }

  /** The rows `save_test` inserts into `test_answers_owner`, one per recorded answer,
      in question order. */
  function OwnerRowsOf(given: seq<int>): (rows: seq<(int, int)>)
    ensures |rows| == |given|
    ensures forall k :: 0 <= k < |rows| ==> rows[k] == (k, given[k])
  {
    seq(|given|, k requires 0 <= k < |given| => (k, given[k]))
  }

  /** Scoring reads back exactly the answers the creator gave. */
  lemma {:induction false} OwnerRowsRoundTrip(given: seq<int>)
    ensures OwnerAnswers(OwnerRowsOf(given)) == Recorded(given)
    decreases |given|
  {
    if given != [] {
      var init := given[..|given| - 1];
      OwnerRowsRoundTrip(init);
      var rows := OwnerRowsOf(given);
      assert rows[..|given| - 1] == OwnerRowsOf(init);
      assert rows[|given| - 1] == (|init|, given[|init|]);
      assert OwnerAnswers(rows) == OwnerAnswers(OwnerRowsOf(init))[|init| := given[|init|]];
      RecordedGrows(given);
    }
  }

  // ---------------------------------------------------------------------------
  // Scoring

  /** `{item['question_index']: item['answer_index'] for item in rows}`: a later row
      for the same question overrides an earlier one. */
  function OwnerAnswers(rows: seq<(int, int)>): (owner: map<int, int>)
    ensures forall q :: q in owner <==> exists k :: 0 <= k < |rows| && rows[k].0 == q
    decreases |rows|
  {
    if rows == [] then map[]
    else
      var init := rows[..|rows| - 1];
      var owner := OwnerAnswers(init);
      assert forall k :: 0 <= k < |init| ==> init[k] == rows[k];
      owner[rows[|rows| - 1].0 := rows[|rows| - 1].1]
  }

  /** The questions the taker answered as the owner did; a question the owner has no
      answer for never matches. */
  function Matches(taker: map<int, int>, owner: map<int, int>): (qs: set<int>)
    ensures qs <= taker.Keys
    ensures forall q :: q in qs <==> q in taker && q in owner && owner[q] == taker[q]
  {
    set q | q in taker && q in owner && owner[q] == taker[q]
  }

  /** `int((correct / total) * 100)`; None where Python divides by zero. For every
      total a session can reach (at most 15) the float truncation and this integer
      division agree. */
  function Percentage(correct: nat, total: nat): (p: Option<nat>)
    ensures total == 0 <==> p.None?
    ensures p.Some? ==> p.value * total <= 100 * correct < (p.value + 1) * total
  {
    if total == 0 then None else Some((100 * correct) / total)
  }

  /** The score of a finished quiz: the share of the taker's answers that match. */
  function Score(taker: map<int, int>, owner: map<int, int>): (p: Option<nat>)
  {
    Percentage(|Matches(taker, owner)|, |taker|)
  }

  /** No answers is the division by zero; otherwise the score is a percentage. */
  lemma ScoreBounded(taker: map<int, int>, owner: map<int, int>)
    ensures Score(taker, owner).None? <==> taker == map[]
    ensures Score(taker, owner).Some? ==> Score(taker, owner).value <= 100
  {
    var m := Matches(taker, owner);
    assert |taker| == |taker.Keys|;
    assert taker.Keys == {} ==> taker == map[];
    assert taker.Keys == m + (taker.Keys - m);
    if taker != map[] {
      PercentageAtMost100(|m|, |taker|);
    }
  }

  lemma PercentageAtMost100(correct: nat, total: nat)
    requires 0 < total && correct <= total
    ensures Percentage(correct, total).Some? && Percentage(correct, total).value <= 100
  {
    var p := Percentage(correct, total).value;
    MulMonotone(correct, total, 100);
    if p > 100 {
      MulMonotone(101, p, total);
      assert false;
    }
  }

  lemma MulMonotone(a: nat, b: nat, c: nat)
    requires a <= b
    ensures a * c <= b * c
  {
    var d: nat := b - a;
    assert b * c == a * c + d * c;
  }

  /** Matching the owner everywhere scores 100; matching nowhere scores 0. */
  lemma ScoreExtremes(taker: map<int, int>, owner: map<int, int>)
    requires taker != map[]
    ensures (forall q :: q in taker ==> q in owner && owner[q] == taker[q]) ==> Score(taker, owner) == Some(100)
    ensures (forall q :: q in taker && q in owner ==> owner[q] != taker[q]) ==> Score(taker, owner) == Some(0)
  {
    ScoreBounded(taker, owner);
    assert |taker| == |taker.Keys|;
    if forall q :: q in taker ==> q in owner && owner[q] == taker[q] {
      assert Matches(taker, owner) == taker.Keys;
    }
    if forall q :: q in taker && q in owner ==> owner[q] != taker[q] {
      assert Matches(taker, owner) == {};
    }
  }

  /** A full fifteen-answer quiz scores `(100 * correct) div 15`. */
  lemma FullQuizScore(choices: seq<int>, owner: map<int, int>)
    requires |choices| == QuestionCount
    ensures Score(Recorded(choices), owner) == Some((100 * |Matches(Recorded(choices), owner)|) / 15)
  {
    RecordedSize(choices);
  }

  /** The answer to the next question adds one entry. */
  lemma RecordedGrows(given: seq<int>)
    requires given != []
    ensures Recorded(given) == Recorded(given[..|given| - 1])[|given| - 1 := given[|given| - 1]]
  {
  }

  /** One entry per answer given. */
  lemma {:induction false} RecordedSize(given: seq<int>)
    ensures |Recorded(given)| == |given|
  {
    if given != [] {
      var init := given[..|given| - 1];
      RecordedSize(init);
      RecordedGrows(given);
    }
  }

  /** The four friendship bands. */
  datatype Band = BestFriend | CloseFriend | Friend | Acquaintance

  /** The thresholds 80, 60 and 40, checked from the top. */
  function BandOf(score: int): (b: Band)
    ensures b == BestFriend <==> score >= 80
    ensures b == CloseFriend <==> 60 <= score < 80
    ensures b == Friend <==> 40 <= score < 60
    ensures b == Acquaintance <==> score < 40
  {
    if score >= 80 then BestFriend
    else if score >= 60 then CloseFriend
    else if score >= 40 then Friend
    else Acquaintance
  }

  /** A higher score never lands in a lower band. */
  function Rank(b: Band): nat
  {
    match b
    case Acquaintance => 0
    case Friend => 1
    case CloseFriend => 2
    case BestFriend => 3
  }

  lemma BandMonotone(s: int, t: int)
    requires s <= t
    ensures Rank(BandOf(s)) <= Rank(BandOf(t))
  {
  }

  /** One row of the `test_results` table. */
  datatype TestResult = TestResult(testId: string, userId: int, score: nat)

  /** The `test_results` table. Results are inserted, never upserted. */
  class ResultTable {
    var rows: seq<TestResult>

    constructor ()
      ensures rows == []
    {
      rows := [];
    }

    /** `calculate_test_score`: scores the taker's answers against the owner's rows,
        inserts the result and reports the score with its band. No answers (a
        division by zero) or a store failure reports nothing and inserts nothing. */
    method Record(testId: string, userId: int, taker: map<int, int>, ownerRows: seq<(int, int)>, fault: bool)
      returns (outcome: Option<(nat, Band)>)
      modifies this
      ensures fault || taker == map[] ==> outcome.None? && rows == old(rows)
      ensures !fault && taker != map[] ==>
                var p := Score(taker, OwnerAnswers(ownerRows)).value;
                outcome == Some((p, BandOf(p))) && rows == old(rows) + [TestResult(testId, userId, p)]
    {
      if fault {
        return None;
      }
      var score := Score(taker, OwnerAnswers(ownerRows));
      if score.None? {
        return None;
      }
      rows := rows + [TestResult(testId, userId, score.value)];
      return Some((score.value, BandOf(score.value)));
    }
  }

  /** Taking the same test twice through the scoring step leaves two result rows. */
  method TakenTwice(table: ResultTable, testId: string, userId: int, taker: map<int, int>, ownerRows: seq<(int, int)>)
    requires taker != map[]
    modifies table
    ensures |table.rows| == |old(table.rows)| + 2
    ensures table.rows[|table.rows| - 1] == table.rows[|table.rows| - 2]
  {
    var first := table.Record(testId, userId, taker, ownerRows, false);
    var second := table.Record(testId, userId, taker, ownerRows, false);
  }
}
