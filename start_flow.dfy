/** The `/start` entry point: it routes a deep-link payload to the streak link, to
    test taking or to the menu; a streak link touches the pair's streak unless it is
    the clicker's own; a test link starts a quiz session unless the test is missing,
    is the user's own or was already taken; a new user first picks a language and
    the test id waits in the session until then. */
module StartFlow {
  import opened Common
  import opened FriendshipStreaks
  import opened Quiz
  import opened StreakActions

  // ---------------------------------------------------------------------------
  // Routing

  datatype Route = StreakLink(payload: string) | TakeTest(testId: string) | Menu

  /** The payload checks of `/start`, streak links first. */
  function RouteOf(args: seq<string>): (r: Route)
    ensures r.StreakLink? <==> |args| > 0 && StartsWith(args[0], "streak_")
    ensures r.TakeTest? <==> |args| > 0 && !StartsWith(args[0], "streak_") && StartsWith(args[0], "s_")
    ensures r.TakeTest? ==> SharePayload(r.testId) == args[0]
  {
    if |args| > 0 && StartsWith(args[0], "streak_") then StreakLink(args[0])
    else if |args| > 0 && StartsWith(args[0], "s_") then
      assert args[0] == args[0][..2] + args[0][2..];
      TakeTest(TestIdOf(args[0]))
    else Menu
  }

  /** The streak link a user shares: `streak_{user id}`. */
  function StreakPayload(user: int): (p: string)
    ensures StartsWith(p, "streak_")
  {
    "streak_" + IntToString(user)
  }

  /** `int(payload.split('_')[1])`; None where Python raises. */
  function SenderOf(payload: string): (sender: Option<int>)
  {
    var parts := Split(payload, '_');
    if |parts| < 2 then None else PyInt(parts[1])
  }

  /** Both kinds of link reach their own handler with what was put into them. */
  lemma RouteRoundTrips(testId: string, user: int)
    ensures RouteOf([SharePayload(testId)]) == TakeTest(testId)
    ensures RouteOf([StreakPayload(user)]) == StreakLink(StreakPayload(user))
    ensures SenderOf(StreakPayload(user)) == Some(user)
  {
    var p := SharePayload(testId);
    assert p[1] == '_';
    assert !StartsWith(p, "streak_");
    SharePayloadRoundTrip(testId);
    var n := IntToString(user);
    assert StreakPayload(user) == "streak" + ['_'] + n;
    SplitCons("streak", '_', n);
    SplitNoSeparator(n, '_');
    PyIntToString(user);
  }

  /** `/start`: the conversation state is cleared, then the payload is routed. The
      two link kinds go to their handlers (`HandleStreakLink`, `StartTakingTest`)
      and change nothing here. Without a link the user is looked up: a known user
      gets the menu; a user the store does not know is saved with language `uz` and
      asked for a language, and so is anyone whose lookup fails (without a save). */
  method Start(ud: UserData, users: Users, user: int, args: seq<string>, lookupFault: bool, saveFault: bool)
    returns (r: Route, asksLanguage: bool)
    modifies ud, users
    ensures r == RouteOf(args)
    ensures ud.creating == null && ud.takingTest.None? && ud.taking == null && ud.pendingTest.None? && !ud.isRetake
    ensures asksLanguage <==> r.Menu? && (lookupFault || user !in old(users.language))
    ensures r.Menu? && !lookupFault && user !in old(users.language) && !saveFault ==>
              users.language == old(users.language)[user := "uz"] && users.premium == old(users.premium)[user := false]
    ensures !(r.Menu? && !lookupFault && user !in old(users.language) && !saveFault) ==>
              users.language == old(users.language) && users.premium == old(users.premium)
  {
    ud.Clear();
    r := RouteOf(args);
    asksLanguage := false;
    if r.Menu? {
      if lookupFault {
        asksLanguage := true;
      } else if user !in users.language {
        users.Save(user, "uz", saveFault);
        asksLanguage := true;
      }
    }
  }

  // ---------------------------------------------------------------------------
  // The streak link

  datatype LinkOutcome = BadLink | OwnLink | CreateError | Linked(days: nat)

  /** `handle_streak_link`: a payload without an integer sender is an error; the
      sender clicking their own link is refused; otherwise the pair (sender, clicker)
      is touched once and one `streak_link_clicked` interaction is logged. */
  method HandleStreakLink(store: StreakStore, log: InteractionLog, clicker: int, payload: string,
                          now: int, today: int, createFault: bool, updateFault: bool, logFault: bool)
    returns (outcome: LinkOutcome)
    requires store.Valid()
    modifies store, log
    ensures store.Valid()
    ensures SenderOf(payload).None? ==> outcome == BadLink
    ensures SenderOf(payload) == Some(clicker) ==> outcome == OwnLink
    ensures outcome.BadLink? || outcome.OwnLink? ==>
              store.rows == old(store.rows) && store.nextId == old(store.nextId) && log.entries == old(log.entries)
    ensures SenderOf(payload).Some? && SenderOf(payload) != Some(clicker) ==>
              var sender := SenderOf(payload).value;
              var pre := PairRow(old(store.rows), old(store.nextId), sender, clicker, now);
              if createFault then outcome == CreateError && store.rows == old(store.rows)
                                  && store.nextId == old(store.nextId) && log.entries == old(log.entries)
              else outcome == Linked(if updateFault then 0 else Advance(pre, today).current)
                   && store.rows == AfterTouch(old(store.rows), old(store.nextId), sender, clicker, now, today, updateFault)
                   && log.entries == old(log.entries) + (if logFault then [] else
                        [Interaction(pre.id, IntToString(sender), IntToString(clicker), "streak_link_clicked", map[])])
  {
    var sender := SenderOf(payload);
    if sender.None? {
      return BadLink;
    }
    if sender.value == clicker {
      return OwnLink;
    }
    var days, touched := Touch(store, log, sender.value, clicker, "streak_link_clicked", None,
                               now, today, createFault, updateFault, logFault);
    if !touched {
      return CreateError;
    }
    return Linked(days);
  }

  /** Clicking a friend's link a second time on the same day changes no row. */
  lemma LinkTwiceSameDay(rows: seq<Streak>, nextId: nat, later: nat, sender: int, clicker: int, now: int, today: int)
    ensures var once := AfterTouch(rows, nextId, sender, clicker, now, today, false);
            AfterTouch(once, later, sender, clicker, now, today, false) == once
  {
    TouchTwiceSameDay(rows, nextId, later, sender, clicker, now, today);
  }

  // ---------------------------------------------------------------------------
  // Taking a test

  /** The `friends_users` columns the start flow writes: the language and the
      premium flag, keyed by the user's id. A key is present exactly when the
      user has a row. */
  class Users {
    var language: map<int, string>
    var premium: map<int, bool>

    constructor ()
      ensures language == map[] && premium == map[]
    {
      language := map[];
      premium := map[];
    }

    /** `save_user`: an upsert of the whole row. Every caller leaves `is_premium`
        at its default, so an existing premium user is written back as not premium.
        A store failure is swallowed and writes nothing. */
    method Save(id: int, code: string, fault: bool)
      modifies this
      ensures fault ==> language == old(language) && premium == old(premium)
      ensures !fault ==> language == old(language)[id := code] && premium == old(premium)[id := false]
    {
      if !fault {
        language := language[id := code];
        premium := premium[id := false];
      }
    }

    /** `.update({'language': code}).eq('telegram_id', id)`: the language of an
        existing row is rewritten; with no matching row nothing is written and
        nothing is raised. */
    method SetLanguage(id: int, code: string)
      modifies this
      ensures id in old(language) ==> language == old(language)[id := code]
      ensures id !in old(language) ==> language == old(language)
      ensures premium == old(premium)
    {
      if id in language {
        language := language[id := code];
      }
    }
  }

  /** The first test with this id. */
  function FirstTestById(tests: seq<TestRow>, testId: string): (t: Option<TestRow>)
    ensures t.Some? ==> t.value in tests && t.value.id == testId
    ensures t.None? <==> forall k :: 0 <= k < |tests| ==> tests[k].id != testId
    decreases |tests|
  {
    if tests == [] then None
    else if tests[0].id == testId then Some(tests[0])
    else
      var rest := FirstTestById(tests[1..], testId);
      assert forall k :: 1 <= k < |tests| ==> tests[k] == tests[1..][k - 1];
      rest
  }

  /** The score of the user's first result for the test, if any. */
  function FirstResult(results: seq<TestResult>, testId: string, user: int): (score: Option<nat>)
    ensures score.None? <==> forall k :: 0 <= k < |results| ==> !(results[k].testId == testId && results[k].userId == user)
    ensures score.Some? ==> exists k :: 0 <= k < |results| && results[k].testId == testId && results[k].userId == user
                                       && results[k].score == score.value
    decreases |results|
  {
    if results == [] then None
    else if results[0].testId == testId && results[0].userId == user then Some(results[0].score)
    else
      var rest := FirstResult(results[1..], testId, user);
      assert forall k :: 1 <= k < |results| ==> results[k] == results[1..][k - 1];
      rest
  }

  /** What the test checks end in. An earlier result shows its score, and its band
      only on the direct path. */
  datatype TakeOutcome = AskLanguage | LoadError | NotFound | OwnTest | AlreadyTaken(score: nat, band: Option<Band>) | Started

  /** The checks in front of a quiz session, for a user whose language is known:
      the test must exist, must not be the user's own, and must not have a result
      from this user, whose old score is shown instead. `direct` is the path of
      `start_taking_test`, which makes the owner check and shows the band; the
      path after a language choice (`language_selected`) does neither. */
  function TakeDecision(tests: seq<TestRow>, results: seq<TestResult>, user: int, testId: string,
                        testFault: bool, direct: bool): (o: TakeOutcome)
  {
    if testFault then LoadError
    else match FirstTestById(tests, testId)
      case None => NotFound
      case Some(t) =>
        if direct && t.owner == user then OwnTest
        else match FirstResult(results, testId, user)
          case Some(score) => AlreadyTaken(score, if direct then Some(BandOf(score)) else None)
          case None => Started
  }

  /** A session starts exactly for an existing test that is not the user's own and
      that the user has no result for. */
  lemma StartedExactly(tests: seq<TestRow>, results: seq<TestResult>, user: int, testId: string, testFault: bool)
    ensures TakeDecision(tests, results, user, testId, testFault, true) == Started <==>
              !testFault
              && (exists k :: 0 <= k < |tests| && tests[k].id == testId)
              && FirstTestById(tests, testId).value.owner != user
              && forall k :: 0 <= k < |results| ==> !(results[k].testId == testId && results[k].userId == user)
  {
  }

  /** An earlier result is reported, never retaken: the score of the user's first
      result, with its band on the direct path and without one after a language
      choice. */
  lemma AlreadyTakenShowsScore(tests: seq<TestRow>, results: seq<TestResult>, user: int, testId: string, direct: bool)
    requires FirstTestById(tests, testId).Some? && FirstTestById(tests, testId).value.owner != user
    requires exists k :: 0 <= k < |results| && results[k].testId == testId && results[k].userId == user
    ensures TakeDecision(tests, results, user, testId, false, direct).AlreadyTaken?
    ensures TakeDecision(tests, results, user, testId, false, direct).score == FirstResult(results, testId, user).value
    ensures direct ==> TakeDecision(tests, results, user, testId, false, direct).band
                         == Some(BandOf(TakeDecision(tests, results, user, testId, false, direct).score))
    ensures !direct ==> TakeDecision(tests, results, user, testId, false, direct).band.None?
  {
  }

  /** Without the owner check (the path after a language choice), an owner opening
      their own untaken test gets a session. */
  lemma PendingPathSkipsOwnerCheck()
    ensures TakeDecision([TestRow("t", 7)], [], 7, "t", false, true) == OwnTest
    ensures TakeDecision([TestRow("t", 7)], [], 7, "t", false, false) == Started
  {
  }

  /** A retake restarts the friend's test even when this user already has a result
      for it: for the same tests and results, the pending path of `/start` stops at
      the old score and the direct path does not start a session either. */
  method RetakeIgnoresResults(ud: UserData, user: int, friend: int, tests: seq<TestRow>, results: seq<TestResult>)
    requires FirstTestOf(tests, friend).Some?
    requires FirstResult(results, FirstTestOf(tests, friend).value, user).Some?
    modifies ud
    ensures TakeDecision(tests, results, user, FirstTestOf(tests, friend).value, false, false).AlreadyTaken?
    ensures TakeDecision(tests, results, user, FirstTestOf(tests, friend).value, false, true) != Started
    ensures ud.takingTest == FirstTestOf(tests, friend) && ud.isRetake
    ensures ud.taking != null && ud.taking.given == []
  {
    IdPayloadRoundTrip("quiz_retake", friend);
    var started := QuizRetake(ud, IdPayload("quiz_retake", friend), tests, false);
  }

  /** `start_taking_test`: a user the store does not know (or cannot be looked up) is
      saved with language `uz`, and the test id waits for the language choice;
      otherwise the checks decide, and only `Started` opens a fresh session. */
  method StartTakingTest(ud: UserData, users: Users, user: int, testId: string, tests: seq<TestRow>,
                         results: seq<TestResult>, lookupFault: bool, saveFault: bool, testFault: bool)
    returns (outcome: TakeOutcome)
    modifies ud, users
    ensures lookupFault || user !in old(users.language) ==>
              outcome == AskLanguage && ud.pendingTest == Some(testId)
              && users.language == (if saveFault then old(users.language) else old(users.language)[user := "uz"])
              && users.premium == (if saveFault then old(users.premium) else old(users.premium)[user := false])
              && ud.taking == old(ud.taking) && ud.takingTest == old(ud.takingTest)
    ensures !lookupFault && user in old(users.language) ==>
              outcome == TakeDecision(tests, results, user, testId, testFault, true)
              && users.language == old(users.language) && users.premium == old(users.premium)
              && ud.pendingTest == old(ud.pendingTest)
    ensures outcome == Started ==>
              ud.takingTest == Some(testId) && fresh(ud.taking) && ud.taking.Valid() && ud.taking.given == []
    ensures outcome != Started ==> ud.taking == old(ud.taking) && ud.takingTest == old(ud.takingTest)
    ensures ud.creating == old(ud.creating) && ud.isRetake == old(ud.isRetake)
  {
    if lookupFault || user !in users.language {
      users.Save(user, "uz", saveFault);
      ud.pendingTest := Some(testId);
      return AskLanguage;
    }
    outcome := TakeDecision(tests, results, user, testId, testFault, true);
    if outcome == Started {
      ud.BeginTaking(testId);
    }
  }

  /** `language_selected`: the language is written by an update of the user's row,
      which does nothing for a user without one; when the update raises, the user
      is saved again instead, which also writes them back as not premium. A
      waiting test id is popped and the test checks run again, without the owner
      check. With no test waiting the menu follows (None). */
  method LanguageSelected(ud: UserData, users: Users, user: int, code: string, tests: seq<TestRow>,
                          results: seq<TestResult>, updateFault: bool, saveFault: bool, testFault: bool)
    returns (outcome: Option<TakeOutcome>)
    modifies ud, users
    ensures !updateFault ==>
              users.language == (if user in old(users.language) then old(users.language)[user := code] else old(users.language))
              && users.premium == old(users.premium)
    ensures updateFault && saveFault ==> users.language == old(users.language) && users.premium == old(users.premium)
    ensures updateFault && !saveFault ==>
              users.language == old(users.language)[user := code] && users.premium == old(users.premium)[user := false]
    ensures ud.pendingTest.None?
    ensures old(ud.pendingTest).None? ==> outcome.None? && ud.taking == old(ud.taking) && ud.takingTest == old(ud.takingTest)
    ensures old(ud.pendingTest).Some? ==>
              outcome == Some(TakeDecision(tests, results, user, old(ud.pendingTest).value, testFault, false))
    ensures outcome == Some(Started) ==>
              ud.takingTest == old(ud.pendingTest) && fresh(ud.taking) && ud.taking.Valid() && ud.taking.given == []
    ensures outcome != Some(Started) ==> ud.taking == old(ud.taking) && ud.takingTest == old(ud.takingTest)
    ensures ud.creating == old(ud.creating) && ud.isRetake == old(ud.isRetake)
  {
    if updateFault {
      users.Save(user, code, saveFault);
    } else {
      users.SetLanguage(user, code);
    }
    if ud.pendingTest.None? {
      return None;
    }
    var testId := ud.pendingTest.value;
    ud.pendingTest := None;
    var decision := TakeDecision(tests, results, user, testId, testFault, false);
    if decision == Started {
      ud.BeginTaking(testId);
    }
    return Some(decision);
  }

  /** A new user's test link: the test id waits through the language choice and is
      used exactly once; a second language choice goes to the menu. */
  method NewUserByTestLink(user: int, testId: string, code: string, tests: seq<TestRow>, results: seq<TestResult>)
    returns (first: TakeOutcome, second: Option<TakeOutcome>)
    ensures first == AskLanguage
    ensures second.None?
  {
    var ud := new UserData();
    var users := new Users();
    var r, asks := Start(ud, users, user, [SharePayload(testId)], false, false);
    RouteRoundTrips(testId, 0);
    first := StartTakingTest(ud, users, user, testId, tests, results, false, false, false);
    var once := LanguageSelected(ud, users, user, code, tests, results, false, false, false);
    assert once == Some(TakeDecision(tests, results, user, testId, false, false));
    second := LanguageSelected(ud, users, user, code, tests, results, false, false, false);
  }
}
