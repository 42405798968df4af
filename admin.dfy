/** The admin statistics: today's active users, counted as the distinct user ids
    among today's birthdays, tests and test results, and the start of "today". */
module Admin {
  import opened Common

  /** A row of `birthdays`, `tests` or `test_results` as the statistics read it, with
      its creation time in seconds since the epoch (UTC). */
  datatype ActivityRow = ActivityRow(userId: int, createdAt: int)

  const SecondsPerDay: nat := 86400

  /** `now` with the hour, minute, second and microsecond set to zero, in UTC. */
  function TodayStart(now: int): (start: int)
  {
    now - now % SecondsPerDay
  }

  /** The start of today is a midnight, at or before `now` and less than a day before it. */
  lemma TodayStartFacts(now: int)
    ensures TodayStart(now) % SecondsPerDay == 0
    ensures TodayStart(now) <= now < TodayStart(now) + SecondsPerDay
    ensures TodayStart(TodayStart(now)) == TodayStart(now)
  {
  }

  /** The `.gte('created_at', today_start)` query: the rows created today or later, in
      table order. */
  function CreatedSince(rows: seq<ActivityRow>, start: int): (r: seq<ActivityRow>)
    ensures |r| <= |rows|
    ensures forall k :: 0 <= k < |r| ==> r[k].createdAt >= start && r[k] in rows
  {
    if rows == [] then []
    else CreatedSince(rows[..|rows| - 1], start) + (if rows[|rows| - 1].createdAt >= start then [rows[|rows| - 1]] else [])
  }

  /** The query keeps every row created at or after the start, and only those. */
  lemma {:induction false} CreatedSinceExactly(rows: seq<ActivityRow>, start: int, row: ActivityRow)
    ensures row in CreatedSince(rows, start) <==> row in rows && row.createdAt >= start
    decreases |rows|
  {
    if rows != [] {
      var init := rows[..|rows| - 1];
      CreatedSinceExactly(init, start, row);
      assert rows == init + [rows[|rows| - 1]];
    }
  }

  /** The distinct user ids of a query's rows. */
  function Ids(rows: seq<ActivityRow>): set<int>
  {
    if rows == [] then {} else Ids(rows[..|rows| - 1]) + {rows[|rows| - 1].userId}
  }

  /** The user ids are exactly those of the rows. */
  lemma {:induction false} IdsMembers(rows: seq<ActivityRow>, u: int)
    ensures u in Ids(rows) <==> exists k :: 0 <= k < |rows| && rows[k].userId == u
    decreases |rows|
  {
    if rows != [] {
      var init := rows[..|rows| - 1];
      IdsMembers(init, u);
      if u in Ids(init) {
        var k :| 0 <= k < |init| && init[k].userId == u;
        assert rows[k].userId == u;
      }
      if exists k :: 0 <= k < |rows| && rows[k].userId == u {
        var k :| 0 <= k < |rows| && rows[k].userId == u;
        assert k < |init| ==> init[k].userId == u;
      }
    }
  }

  /** There are never more distinct users than rows. */
  lemma {:induction false} IdsAtMostRows(rows: seq<ActivityRow>)
    ensures |Ids(rows)| <= |rows|
    decreases |rows|
  {
    if rows != [] {
      IdsAtMostRows(rows[..|rows| - 1]);
    }
  }

  /** The ids of two lists joined are the union of their ids. */
  lemma {:induction false} IdsRepeated(a: seq<ActivityRow>, b: seq<ActivityRow>)
    ensures Ids(a + b) == Ids(a) + Ids(b)
    decreases |b|
  {
    if b == [] {
      assert a + b == a;
    } else {
      assert (a + b)[..|a + b| - 1] == a + b[..|b| - 1];
      IdsRepeated(a, b[..|b| - 1]);
    }
  }

  /** The users active since `start`: those with a row created at or after it in
      any of the three tables. */
  function ActiveSince(birthdays: seq<ActivityRow>, tests: seq<ActivityRow>, results: seq<ActivityRow>,
                       start: int): set<int>
  {
    Ids(CreatedSince(birthdays, start)) + Ids(CreatedSince(tests, start)) + Ids(CreatedSince(results, start))
  }

  /** The count the statistics show for today's active users. */
  function ActiveCount(birthdays: seq<ActivityRow>, tests: seq<ActivityRow>, results: seq<ActivityRow>,
                       now: int): nat
  {
    |ActiveSince(birthdays, tests, results, TodayStart(now))|
  }

  /** One `for row in data` pass: adds each row's user id to the set built so far. */
  method AddIds(unique: set<int>, rows: seq<ActivityRow>) returns (u: set<int>)
    ensures u == unique + Ids(rows)
  {
    u := unique;
    var i := 0;
    while i < |rows|
      invariant 0 <= i <= |rows|
      invariant u == unique + Ids(rows[..i])
    {
      assert rows[..i + 1][..i] == rows[..i];
      u := u + {rows[i].userId};
      i := i + 1;
    }
    assert rows[..i] == rows;
  }

  /** `get_todays_active_users` over the three tables and the current time: each
      table is queried for the rows created since the start of today, and the
      distinct user ids are counted; 0 when the store fails. */
  method TodaysActiveUsers(birthdays: seq<ActivityRow>, tests: seq<ActivityRow>, results: seq<ActivityRow>,
                           now: int, fault: bool) returns (n: nat)
    ensures fault ==> n == 0
    ensures !fault ==> n == ActiveCount(birthdays, tests, results, now)
  {
    if fault {
      return 0;
    }
    var start := TodayStart(now);
    var unique: set<int> := {};
    unique := AddIds(unique, CreatedSince(birthdays, start));
    unique := AddIds(unique, CreatedSince(tests, start));
    unique := AddIds(unique, CreatedSince(results, start));
    n := |unique|;
  }

  /** A user is counted exactly when one of the three tables has a row of theirs
      created today or later. */
  lemma ActiveExactly(birthdays: seq<ActivityRow>, tests: seq<ActivityRow>, results: seq<ActivityRow>,
                      now: int, u: int)
    ensures u in ActiveSince(birthdays, tests, results, TodayStart(now)) <==>
              ActiveIn(birthdays, TodayStart(now), u) || ActiveIn(tests, TodayStart(now), u)
              || ActiveIn(results, TodayStart(now), u)
  {
    var start := TodayStart(now);
    ActiveInExactly(birthdays, start, u);
    ActiveInExactly(tests, start, u);
    ActiveInExactly(results, start, u);
  }

  /** `rows` has a row of `u` created at or after `start`. */
  predicate ActiveIn(rows: seq<ActivityRow>, start: int, u: int)
  {
    exists k :: 0 <= k < |rows| && rows[k].userId == u && rows[k].createdAt >= start
  }

  lemma ActiveInExactly(rows: seq<ActivityRow>, start: int, u: int)
    ensures u in Ids(CreatedSince(rows, start)) <==> ActiveIn(rows, start, u)
  {
    var since := CreatedSince(rows, start);
    IdsMembers(since, u);
    if u in Ids(since) {
      var k :| 0 <= k < |since| && since[k].userId == u;
      var row := since[k];
      assert row in since;
      CreatedSinceExactly(rows, start, row);
      var j :| 0 <= j < |rows| && rows[j] == row;
    }
    if ActiveIn(rows, start, u) {
      var j :| 0 <= j < |rows| && rows[j].userId == u && rows[j].createdAt >= start;
      CreatedSinceExactly(rows, start, rows[j]);
      var k :| 0 <= k < |since| && since[k] == rows[j];
    }
  }

  /** Rows from before today change nothing: adding one to any table leaves the
      count as it was. */
  lemma EarlierRowsIgnored(birthdays: seq<ActivityRow>, tests: seq<ActivityRow>, results: seq<ActivityRow>,
                           now: int, row: ActivityRow)
    requires row.createdAt < TodayStart(now)
    ensures ActiveCount(birthdays + [row], tests, results, now) == ActiveCount(birthdays, tests, results, now)
    ensures ActiveCount(birthdays, tests + [row], results, now) == ActiveCount(birthdays, tests, results, now)
    ensures ActiveCount(birthdays, tests, results + [row], now) == ActiveCount(birthdays, tests, results, now)
  {
    var start := TodayStart(now);
    assert (birthdays + [row])[..|birthdays|] == birthdays;
    assert (tests + [row])[..|tests|] == tests;
    assert (results + [row])[..|results|] == results;
    assert CreatedSince(birthdays + [row], start) == CreatedSince(birthdays, start);
    assert CreatedSince(tests + [row], start) == CreatedSince(tests, start);
    assert CreatedSince(results + [row], start) == CreatedSince(results, start);
  }

  /** The count lies between the largest single table's distinct users today and
      the total number of today's rows. */
  lemma ActiveCountBounds(b: seq<ActivityRow>, t: seq<ActivityRow>, r: seq<ActivityRow>, now: int)
    ensures var start := TodayStart(now);
            |Ids(CreatedSince(b, start))| <= ActiveCount(b, t, r, now)
            && |Ids(CreatedSince(t, start))| <= ActiveCount(b, t, r, now)
            && |Ids(CreatedSince(r, start))| <= ActiveCount(b, t, r, now)
            && ActiveCount(b, t, r, now) <= |CreatedSince(b, start)| + |CreatedSince(t, start)| + |CreatedSince(r, start)|
  {
    var start := TodayStart(now);
    var ib, it, ir := Ids(CreatedSince(b, start)), Ids(CreatedSince(t, start)), Ids(CreatedSince(r, start));
    IdsAtMostRows(CreatedSince(b, start));
    IdsAtMostRows(CreatedSince(t, start));
    IdsAtMostRows(CreatedSince(r, start));
    var all := ib + it + ir;
    assert ib <= all && it <= all && ir <= all;
    SubsetSize(ib, all);
    SubsetSize(it, all);
    SubsetSize(ir, all);
    assert |ib + it| <= |ib| + |it|;
  }

  lemma SubsetSize(a: set<int>, b: set<int>)
    requires a <= b
    ensures |a| <= |b|
  {
    assert b == a + (b - a);
  }

  /** A user with rows in several tables, or several rows in one, is counted once:
      repeating a table's rows, or finding the same rows in every table, changes
      nothing. */
  lemma CountedOnce(b: seq<ActivityRow>, t: seq<ActivityRow>, r: seq<ActivityRow>, now: int)
    ensures ActiveCount(b + b, t, r, now) == ActiveCount(b, t, r, now)
    ensures ActiveCount(b, b, b, now) == |Ids(CreatedSince(b, TodayStart(now)))|
  {
    var start := TodayStart(now);
    var since := CreatedSince(b, start);
    CreatedSinceAppend(b, b, start);
    IdsRepeated(since, since);
    assert Ids(since) + Ids(since) + Ids(since) == Ids(since);
  }

  lemma {:induction false} CreatedSinceAppend(a: seq<ActivityRow>, b: seq<ActivityRow>, start: int)
    ensures CreatedSince(a + b, start) == CreatedSince(a, start) + CreatedSince(b, start)
    decreases |b|
  {
    if b == [] {
      assert a + b == a;
    } else {
      var init := b[..|b| - 1];
      assert (a + b)[..|a + b| - 1] == a + init;
      CreatedSinceAppend(a, init, start);
    }
  }

  /** Empty tables count no one. */
  lemma NoRowsNoOne(now: int)
    ensures ActiveCount([], [], [], now) == 0
  {
    assert CreatedSince([], TodayStart(now)) == [];
    assert Ids([]) == {};
  }
}
