/** The two leaderboards: this week's best quiz scores and the longest current
    friendship streaks, with the rank lookups used to point a user at their own
    place. Days are UTC day numbers, as in the streak module. */
module Leaderboard {
  import opened Common

  // ---------------------------------------------------------------------------
  // The week

  /** Python's `date.weekday()` for a day number: 0 is Monday. Day 0, 1970-01-01,
      was a Thursday. */
  function Weekday(day: int): (w: int)
    ensures 0 <= w < 7
  {
    (day + 3) % 7
  }

  /** `now - timedelta(days=now.weekday())` truncated to midnight: the most recent
      Monday on or before `day`. */
  function WeekStart(day: int): (ws: int)
    ensures ws <= day < ws + 7
    ensures Weekday(ws) == 0
    ensures forall m :: m <= day && Weekday(m) == 0 ==> m <= ws
  {
    var ws := day - Weekday(day);
    assert forall m :: ws < m <= day ==> Weekday(m) == Weekday(day) - (day - m) by {
      forall m | ws < m <= day ensures Weekday(m) == Weekday(day) - (day - m) {
        var q := (day + 3) / 7;
        assert day + 3 == 7 * q + Weekday(day);
        assert m + 3 == 7 * q + (Weekday(day) - (day - m));
      }
    }
    ws
  }

  // ---------------------------------------------------------------------------
  // Weekly best scores

  /** One row of `test_results`; `createdAt` is in seconds since the epoch. */
  datatype ScoreRow = ScoreRow(userId: int, score: int, createdAt: int)

  /** One item of the `user_scores` dictionary: a user and their best score. */
  datatype Entry = Entry(userId: int, score: int)

  /** The position of `u` among the entries, if present. */
  function IndexOf(es: seq<Entry>, u: int): (k: Option<nat>)
    ensures k.Some? ==> k.value < |es| && es[k.value].userId == u
                        && forall j :: 0 <= j < k.value ==> es[j].userId != u
    ensures k.None? <==> forall j :: 0 <= j < |es| ==> es[j].userId != u
    decreases |es|
  {
    if es == [] then None
    else if es[0].userId == u then Some(0)
    else
      match IndexOf(es[1..], u)
      case None => None
      case Some(k) => Some(k + 1)
  }

  /** One step of the grouping loop: a new user is appended (dictionaries keep
      insertion order); a known user's score is replaced only by a strictly larger one. */
  function Put(es: seq<Entry>, r: ScoreRow): (es': seq<Entry>)
  {
    match IndexOf(es, r.userId)
    case None => es + [Entry(r.userId, r.score)]
    case Some(k) => if r.score > es[k].score then es[k := Entry(r.userId, r.score)] else es
  }

  /** The dictionary after grouping `rows`. */
  function BestOf(rows: seq<ScoreRow>): seq<Entry>
    decreases |rows|
  {
    if rows == [] then [] else Put(BestOf(rows[..|rows| - 1]), rows[|rows| - 1])
  }

  predicate DistinctUsers(es: seq<Entry>)
  {
    forall i, j :: 0 <= i < j < |es| ==> es[i].userId != es[j].userId
  }

  /** The rows read as (user, score) pairs. */
  function Entries(rows: seq<ScoreRow>): (es: seq<Entry>)
    ensures |es| == |rows|
    decreases |rows|
  {
    if rows == [] then []
    else Entries(rows[..|rows| - 1]) + [Entry(rows[|rows| - 1].userId, rows[|rows| - 1].score)]
  }

  /** Each user of `rows` has exactly one entry, holding the largest score that
      user has among `rows`. */
  ghost predicate GroupsBest(es: seq<Entry>, rows: seq<ScoreRow>)
  {
    DistinctUsers(es) && Covers(es, Entries(rows)) && DrawnFrom(es, Entries(rows))
  }

  /** Every pair has an entry for its user, at least as large as the pair's score. */
  ghost predicate Covers(es: seq<Entry>, pairs: seq<Entry>)
  {
    forall e :: e in pairs ==>
      IndexOf(es, e.userId).Some? && e.score <= es[IndexOf(es, e.userId).value].score
  }

  /** Every entry is one of the pairs. */
  ghost predicate DrawnFrom(es: seq<Entry>, pairs: seq<Entry>)
  {
    forall j :: 0 <= j < |es| ==> es[j] in pairs
  }

  lemma {:induction false} IndexOfAppend(es: seq<Entry>, x: Entry, u: int)
    ensures IndexOf(es + [x], u) ==
              if IndexOf(es, u).Some? then IndexOf(es, u)
              else if x.userId == u then Some(|es|) else None
    decreases |es|
  {
    if es != [] {
      assert (es + [x])[1..] == es[1..] + [x];
      IndexOfAppend(es[1..], x, u);
    }
  }

  lemma {:induction false} IndexOfUpdate(es: seq<Entry>, k: nat, x: Entry, u: int)
    requires k < |es| && x.userId == es[k].userId
    ensures IndexOf(es[k := x], u) == IndexOf(es, u)
    decreases |es|
  {
    if es != [] && k > 0 {
      assert es[k := x][1..] == es[1..][k - 1 := x];
      IndexOfUpdate(es[1..], k - 1, x, u);
    }
  }

  lemma EntriesAppend(rows: seq<ScoreRow>, r: ScoreRow)
    ensures Entries(rows + [r]) == Entries(rows) + [Entry(r.userId, r.score)]
  {
    assert (rows + [r])[..|rows|] == rows;
  }

  lemma PutGroupsNew(es: seq<Entry>, rows: seq<ScoreRow>, r: ScoreRow)
    requires GroupsBest(es, rows) && IndexOf(es, r.userId).None?
    ensures GroupsBest(Put(es, r), rows + [r])
  {
    var all := rows + [r];
    var x := Entry(r.userId, r.score);
    assert all[..|all| - 1] == rows;
    var grown := Entries(all);
    assert grown == Entries(rows) + [x];
    var es' := es + [x];
    assert Put(es, r) == es';
    forall i, j | 0 <= i < j < |es'| ensures es'[i].userId != es'[j].userId {
      assert es'[i] == es[i];
      if j < |es| { assert es'[j] == es[j]; }
    }
    forall e | e in grown
      ensures IndexOf(es', e.userId).Some? && e.score <= es'[IndexOf(es', e.userId).value].score
    {
      IndexOfAppend(es, x, e.userId);
      if e in Entries(rows) {
        assert es'[IndexOf(es, e.userId).value] == es[IndexOf(es, e.userId).value];
      } else {
        assert e == x;
      }
    }
    forall j | 0 <= j < |es'| ensures es'[j] in grown {
      if j < |es| { assert es'[j] == es[j]; }
    }
  }

  lemma PutGroupsKnown(es: seq<Entry>, rows: seq<ScoreRow>, r: ScoreRow)
    requires GroupsBest(es, rows) && IndexOf(es, r.userId).Some?
    ensures GroupsBest(Put(es, r), rows + [r])
  {
    var k := IndexOf(es, r.userId).value;
    if r.score > es[k].score {
      PutGroupsRaise(es, rows, r, k);
      assert Put(es, r) == es[k := Entry(r.userId, r.score)];
    } else {
      assert Put(es, r) == es;
    }
  }

  /** A known user with a strictly larger score: their entry is replaced in place. */
  lemma PutGroupsRaise(es: seq<Entry>, rows: seq<ScoreRow>, r: ScoreRow, k: nat)
    requires GroupsBest(es, rows) && IndexOf(es, r.userId) == Some(k) && r.score > es[k].score
    ensures GroupsBest(es[k := Entry(r.userId, r.score)], rows + [r])
  {
    var x := Entry(r.userId, r.score);
    var grown := Entries(rows + [r]);
    EntriesAppend(rows, r);
    var raised := es[k := x];
    RaiseDistinct(es, k, x, raised);
    RaiseCovers(es, Entries(rows), k, x, raised, grown);
    RaiseFromRows(es, Entries(rows), k, x, raised, grown);
  }

  lemma RaiseDistinct(es: seq<Entry>, k: nat, x: Entry, raised: seq<Entry>)
    requires DistinctUsers(es) && k < |es| && es[k].userId == x.userId && raised == es[k := x]
    ensures DistinctUsers(raised)
  {
    forall i, j | 0 <= i < j < |raised| ensures raised[i].userId != raised[j].userId {
      assert raised[i].userId == es[i].userId && raised[j].userId == es[j].userId;
    }
  }

  lemma RaiseCovers(es: seq<Entry>, seen: seq<Entry>, k: nat, x: Entry, raised: seq<Entry>, grown: seq<Entry>)
    requires Covers(es, seen)
    requires IndexOf(es, x.userId) == Some(k) && x.score > es[k].score
    requires raised == es[k := x] && grown == seen + [x]
    ensures Covers(raised, grown)
  {
    forall e | e in grown
      ensures IndexOf(raised, e.userId).Some? && e.score <= raised[IndexOf(raised, e.userId).value].score
    {
      IndexOfUpdate(es, k, x, e.userId);
      if e in seen {
        var m := IndexOf(es, e.userId).value;
        if m != k {
          assert raised[m] == es[m];
        }
      } else {
        assert e == x;
      }
    }
  }

  lemma RaiseFromRows(es: seq<Entry>, seen: seq<Entry>, k: nat, x: Entry, raised: seq<Entry>, grown: seq<Entry>)
    requires DrawnFrom(es, seen)
    requires k < |es| && raised == es[k := x] && grown == seen + [x]
    ensures DrawnFrom(raised, grown)
  {
    forall j | 0 <= j < |raised| ensures raised[j] in grown {
      if j != k {
        assert raised[j] == es[j];
        assert es[j] in seen;
      } else {
        assert grown[|seen|] == x;
      }
    }
  }

  lemma {:induction false} BestOfGroups(rows: seq<ScoreRow>)
    ensures GroupsBest(BestOf(rows), rows)
    decreases |rows|
  {
    if rows != [] {
      var init := rows[..|rows| - 1];
      BestOfGroups(init);
      assert rows == init + [rows[|rows| - 1]];
      if IndexOf(BestOf(init), rows[|rows| - 1].userId).None? {
        PutGroupsNew(BestOf(init), init, rows[|rows| - 1]);
      } else {
        PutGroupsKnown(BestOf(init), init, rows[|rows| - 1]);
      }
    }
  }

  /** The grouping loop of `get_weekly_top_scores`. */
  method BestScores(rows: seq<ScoreRow>) returns (es: seq<Entry>)
    ensures es == BestOf(rows)
  {
    es := [];
    var i := 0;
    while i < |rows|
      invariant 0 <= i <= |rows|
      invariant es == BestOf(rows[..i])
    {
      assert rows[..i + 1][..i] == rows[..i];
      var r := rows[i];
      var k := IndexOf(es, r.userId);
      if k.None? {
        es := es + [Entry(r.userId, r.score)];
      } else if r.score > es[k.value].score {
        es := es[k.value := Entry(r.userId, r.score)];
      }
      i := i + 1;
    }
    assert rows[..i] == rows;
  }

  // ---------------------------------------------------------------------------
  // sorted(items, key=score, reverse=True): a stable sort, best score first

  predicate Descending(es: seq<Entry>)
  {
    forall i, j :: 0 <= i < j < |es| ==> es[i].score >= es[j].score
  }

  /** Places `x` before the first entry whose score is not above its own, so that
      it stays ahead of the equal scores that followed it in the input. */
  function Insert(x: Entry, s: seq<Entry>): (t: seq<Entry>)
    ensures |t| == |s| + 1
    ensures multiset(t) == multiset(s) + multiset{x}
    decreases |s|
  {
    if s == [] || s[0].score <= x.score then [x] + s
    else
      assert s == [s[0]] + s[1..];
      [s[0]] + Insert(x, s[1..])
  }

  function SortDesc(es: seq<Entry>): (t: seq<Entry>)
    ensures |t| == |es|
    ensures multiset(t) == multiset(es)
    decreases |es|
  {
    if es == [] then []
    else
      assert es == [es[0]] + es[1..];
      Insert(es[0], SortDesc(es[1..]))
  }

  /** The entries with score `v`, in order. */
  function WithScore(es: seq<Entry>, v: int): seq<Entry>
    decreases |es|
  {
    if es == [] then [] else (if es[0].score == v then [es[0]] else []) + WithScore(es[1..], v)
  }

  lemma {:induction false} InsertDescending(x: Entry, s: seq<Entry>)
    requires Descending(s)
    ensures Descending(Insert(x, s))
    decreases |s|
  {
    if s != [] && s[0].score > x.score {
      var tail := s[1..];
      assert Descending(tail) by {
        forall i, j | 0 <= i < j < |tail| ensures tail[i].score >= tail[j].score {
          assert tail[i] == s[i + 1] && tail[j] == s[j + 1];
        }
      }
      InsertDescending(x, tail);
      var t := Insert(x, tail);
      assert forall i :: 0 <= i < |tail| ==> tail[i].score <= s[0].score by {
        forall i | 0 <= i < |tail| ensures tail[i].score <= s[0].score {
          assert tail[i] == s[i + 1];
        }
      }
      InsertBelow(x, tail, s[0].score);
      var r := [s[0]] + t;
      forall i, j | 0 <= i < j < |r| ensures r[i].score >= r[j].score {
        if i > 0 { assert r[i] == t[i - 1] && r[j] == t[j - 1]; }
      }
    }
  }

  /** Inserting an entry no better than `m` among entries no better than `m` keeps them so. */
  lemma {:induction false} InsertBelow(x: Entry, s: seq<Entry>, m: int)
    requires x.score <= m
    requires forall i :: 0 <= i < |s| ==> s[i].score <= m
    ensures forall i :: 0 <= i < |Insert(x, s)| ==> Insert(x, s)[i].score <= m
    decreases |s|
  {
    if s != [] && s[0].score > x.score {
      InsertBelow(x, s[1..], m);
      var t := Insert(x, s[1..]);
      assert Insert(x, s) == [s[0]] + t;
      forall i | 0 <= i < |Insert(x, s)| ensures Insert(x, s)[i].score <= m {
        if i > 0 { assert Insert(x, s)[i] == t[i - 1]; }
      }
    }
  }

  lemma {:induction false} InsertStable(x: Entry, s: seq<Entry>, v: int)
    ensures WithScore(Insert(x, s), v) == (if x.score == v then [x] else []) + WithScore(s, v)
    decreases |s|
  {
    if s == [] || s[0].score <= x.score {
      assert ([x] + s)[1..] == s;
    } else {
      InsertStable(x, s[1..], v);
      assert ([s[0]] + Insert(x, s[1..]))[1..] == Insert(x, s[1..]);
    }
  }

  /** The sort orders by score, keeps every entry, and is stable: the entries with
      any one score come out in the order they went in. */
  lemma {:induction false} SortDescCorrect(es: seq<Entry>)
    ensures Descending(SortDesc(es))
    ensures multiset(SortDesc(es)) == multiset(es)
    ensures forall v :: WithScore(SortDesc(es), v) == WithScore(es, v)
    decreases |es|
  {
    if es != [] {
      SortDescCorrect(es[1..]);
      InsertDescending(es[0], SortDesc(es[1..]));
      forall v ensures WithScore(SortDesc(es), v) == WithScore(es, v) {
        InsertStable(es[0], SortDesc(es[1..]), v);
      }
    }
  }

  lemma {:induction false} InsertElements(x: Entry, s: seq<Entry>)
    ensures forall i :: 0 <= i < |Insert(x, s)| ==> Insert(x, s)[i] == x || Insert(x, s)[i] in s
    decreases |s|
  {
    if s != [] && s[0].score > x.score {
      InsertElements(x, s[1..]);
      var t := Insert(x, s[1..]);
      assert forall i :: 0 < i < |t| + 1 ==> Insert(x, s)[i] == t[i - 1];
      assert forall e :: e in s[1..] ==> e in s;
    }
  }

  lemma {:induction false} InsertKeepsDistinct(x: Entry, s: seq<Entry>)
    requires DistinctUsers(s) && forall e :: e in s ==> e.userId != x.userId
    ensures DistinctUsers(Insert(x, s))
    decreases |s|
  {
    if s != [] && s[0].score > x.score {
      var tail := s[1..];
      assert forall m :: 0 <= m < |tail| ==> tail[m] == s[m + 1];
      InsertKeepsDistinct(x, tail);
      InsertElements(x, tail);
      var t := Insert(x, tail);
      var r := [s[0]] + t;
      forall i, j | 0 <= i < j < |r| ensures r[i].userId != r[j].userId {
        assert r[j] == t[j - 1];
        if i > 0 {
          assert r[i] == t[i - 1];
        } else if t[j - 1] != x {
          var m :| 0 <= m < |tail| && tail[m] == t[j - 1];
        }
      }
    }
  }

  /** Sorting keeps "one entry per user". */
  lemma {:induction false} SortDescKeepsDistinct(es: seq<Entry>)
    requires DistinctUsers(es)
    ensures DistinctUsers(SortDesc(es))
    decreases |es|
  {
    if es != [] {
      var tail := es[1..];
      assert DistinctUsers(tail) by {
        forall i, j | 0 <= i < j < |tail| ensures tail[i].userId != tail[j].userId {
          assert tail[i] == es[i + 1] && tail[j] == es[j + 1];
        }
      }
      SortDescKeepsDistinct(tail);
      var t := SortDesc(tail);
      forall e | e in t ensures e.userId != es[0].userId {
        assert e in multiset(t);
        var m :| 0 <= m < |tail| && tail[m] == e;
        assert es[m + 1] == e;
      }
      InsertKeepsDistinct(es[0], t);
    }
  }

  // ---------------------------------------------------------------------------
  // The weekly board

  /** A line of the weekly board. */
  datatype Ranked = Ranked(userId: int, name: Option<string>, score: int)

  /** The best entries after the sort: `[:10]`. */
  function Top10(es: seq<Entry>): (top: seq<Entry>)
    ensures |top| <= 10 && |top| <= |es| && top == es[..|top|]
    ensures |es| <= 10 ==> top == es
  {
    if |es| <= 10 then es else es[..10]
  }

  /** The profile loop: entries whose user has a profile, with its display name; the
      others are dropped, not replaced. */
  function Named(es: seq<Entry>, profiles: map<int, Profile>): (board: seq<Ranked>)
    ensures |board| <= |es|
    ensures forall m :: 0 <= m < |board| ==>
              board[m].userId in profiles && board[m].name == DisplayName(profiles[board[m].userId])
              && Entry(board[m].userId, board[m].score) in es
    decreases |es|
  {
    if es == [] then []
    else
      var rest := Named(es[1..], profiles);
      assert forall e :: e in es[1..] ==> e in es;
      if es[0].userId in profiles then [Ranked(es[0].userId, DisplayName(profiles[es[0].userId]), es[0].score)] + rest
      else rest
  }

  /** One turn of the profile loop. */
  lemma NamedStep(es: seq<Entry>, i: nat, profiles: map<int, Profile>)
    requires i < |es|
    ensures Named(es[i..], profiles) ==
              (if es[i].userId in profiles
               then [Ranked(es[i].userId, DisplayName(profiles[es[i].userId]), es[i].score)] else [])
              + Named(es[i + 1..], profiles)
  {
    assert es[i..][1..] == es[i + 1..];
  }

  /** What `get_weekly_top_scores` returns for the week's rows. */
  function WeeklyBoard(rows: seq<ScoreRow>, profiles: map<int, Profile>): seq<Ranked>
  {
    Named(Top10(SortDesc(BestOf(rows))), profiles)
  }

  /** Best score first, and no user twice. */
  predicate RankedInOrder(board: seq<Ranked>)
  {
    forall i, j :: 0 <= i < j < |board| ==> board[i].score >= board[j].score && board[i].userId != board[j].userId
  }

  lemma {:induction false} NamedKeepsOrder(es: seq<Entry>, profiles: map<int, Profile>)
    requires Descending(es) && DistinctUsers(es)
    ensures RankedInOrder(Named(es, profiles))
    decreases |es|
  {
    if es != [] {
      var tail := es[1..];
      assert forall m :: 0 <= m < |tail| ==> tail[m] == es[m + 1];
      NamedKeepsOrder(tail, profiles);
      var rest := Named(tail, profiles);
      if es[0].userId in profiles {
        var head := Ranked(es[0].userId, DisplayName(profiles[es[0].userId]), es[0].score);
        forall m | 0 <= m < |rest| ensures head.score >= rest[m].score && head.userId != rest[m].userId {
          var e := Entry(rest[m].userId, rest[m].score);
          var k :| 0 <= k < |tail| && tail[k] == e;
          assert es[k + 1] == e;
        }
        RankedCons(head, rest);
      }
    }
  }

  lemma RankedCons(head: Ranked, rest: seq<Ranked>)
    requires RankedInOrder(rest)
    requires forall m :: 0 <= m < |rest| ==> head.score >= rest[m].score && head.userId != rest[m].userId
    ensures RankedInOrder([head] + rest)
  {
    var board := [head] + rest;
    forall i, j | 0 <= i < j < |board| ensures board[i].score >= board[j].score && board[i].userId != board[j].userId {
      assert board[j] == rest[j - 1];
      if i > 0 {
        assert board[i] == rest[i - 1];
      }
    }
  }

  /** An entry that is some row of the user's and at least as large as all of them. */
  ghost predicate IsBest(e: Entry, rows: seq<ScoreRow>)
  {
    e in Entries(rows) && forall f :: f in Entries(rows) && f.userId == e.userId ==> f.score <= e.score
  }

  lemma BestOfIsBest(rows: seq<ScoreRow>, e: Entry)
    requires e in BestOf(rows)
    ensures IsBest(e, rows)
  {
    BestOfGroups(rows);
    var es := BestOf(rows);
    var p :| 0 <= p < |es| && es[p] == e;
    forall f | f in Entries(rows) && f.userId == e.userId ensures f.score <= e.score {
      assert es[IndexOf(es, f.userId).value].userId == es[p].userId;
    }
  }

  /** The weekly board: at most ten lines, one per user, best score first; each line
      holds the user's best score of the week and the user has a profile. */
  lemma WeeklyBoardShape(rows: seq<ScoreRow>, profiles: map<int, Profile>)
    ensures |WeeklyBoard(rows, profiles)| <= 10
    ensures RankedInOrder(WeeklyBoard(rows, profiles))
    ensures forall m :: 0 <= m < |WeeklyBoard(rows, profiles)| ==>
              WeeklyBoard(rows, profiles)[m].userId in profiles &&
              IsBest(Entry(WeeklyBoard(rows, profiles)[m].userId, WeeklyBoard(rows, profiles)[m].score), rows)
  {
    var es := BestOf(rows);
    BestOfGroups(rows);
    var sorted := SortDesc(es);
    SortDescCorrect(es);
    SortDescKeepsDistinct(es);
    var top := Top10(sorted);
    assert forall m :: 0 <= m < |top| ==> top[m] == sorted[m];
    assert Descending(top) && DistinctUsers(top);
    NamedKeepsOrder(top, profiles);
    var board := Named(top, profiles);
    forall m | 0 <= m < |board| ensures IsBest(Entry(board[m].userId, board[m].score), rows) {
      var e := Entry(board[m].userId, board[m].score);
      assert e in sorted;
      assert e in multiset(es);
      BestOfIsBest(rows, e);
    }
  }

  // ---------------------------------------------------------------------------
  // The weekly query

  /** `start_of_week` as a UNIX time in seconds: midnight UTC of the most recent
      Monday on or before `now`. */
  function WeekStartTime(now: int): (ws: int)
    ensures ws <= now < ws + 7 * 86400
    ensures ws % 86400 == 0 && Weekday(ws / 86400) == 0
  {
    var day := now / 86400;
    var monday := WeekStart(day);
    assert monday * 86400 <= day * 86400 <= now < (day + 1) * 86400 <= (monday + 7) * 86400;
    monday * 86400
  }

  /** The query's order: best score first, and among equal scores the oldest row
      first (`.order('score', desc=True).order('created_at', desc=False)`). */
  predicate QueryOrdered(rows: seq<ScoreRow>)
  {
    forall i, j :: 0 <= i < j < |rows| ==>
      rows[i].score > rows[j].score || (rows[i].score == rows[j].score && rows[i].createdAt <= rows[j].createdAt)
  }

  /** `.gte('created_at', start)`: the rows created at or after `start`, in table order. */
  function Since(rows: seq<ScoreRow>, start: int): (week: seq<ScoreRow>)
    ensures |week| <= |rows|
    ensures forall r :: r in week <==> r in rows && r.createdAt >= start
    decreases |rows|
  {
    if rows == [] then []
    else
      var init := rows[..|rows| - 1];
      assert rows == init + [rows[|rows| - 1]];
      Since(init, start) + (if rows[|rows| - 1].createdAt >= start then [rows[|rows| - 1]] else [])
  }

  /** The weekly `test_results` query over a table listed in the query's order: this
      week's rows, cut to the first 50 (`.limit(50)`). */
  function WeeklyQuery(table: seq<ScoreRow>, now: int): (rows: seq<ScoreRow>)
    ensures |rows| <= 50
    ensures forall r :: r in rows ==> r in table && r.createdAt >= WeekStartTime(now)
    ensures |Since(table, WeekStartTime(now))| <= 50 ==>
              forall r :: r in table && r.createdAt >= WeekStartTime(now) ==> r in rows
  {
    var week := Since(table, WeekStartTime(now));
    if |week| <= 50 then week
    else
      assert forall r :: r in week[..50] ==> r in week;
      week[..50]
  }

  lemma {:induction false} SinceKeepsOrder(rows: seq<ScoreRow>, start: int)
    requires QueryOrdered(rows)
    ensures QueryOrdered(Since(rows, start))
    decreases |rows|
  {
    if rows != [] {
      var init := rows[..|rows| - 1];
      var last := rows[|rows| - 1];
      assert forall m :: 0 <= m < |init| ==> init[m] == rows[m];
      SinceKeepsOrder(init, start);
      var s0 := Since(init, start);
      if last.createdAt >= start {
        var week := s0 + [last];
        forall i, j | 0 <= i < j < |week|
          ensures week[i].score > week[j].score
                  || (week[i].score == week[j].score && week[i].createdAt <= week[j].createdAt)
        {
          assert week[i] == s0[i];
          if j < |s0| {
            assert week[j] == s0[j];
          } else {
            assert s0[i] in init;
            var k :| 0 <= k < |init| && init[k] == s0[i];
            assert rows[k] == week[i] && rows[|rows| - 1] == week[j];
          }
        }
      }
    }
  }

  /** The query keeps the table's order. */
  lemma QueryKeepsOrder(table: seq<ScoreRow>, now: int)
    requires QueryOrdered(table)
    ensures QueryOrdered(WeeklyQuery(table, now))
  {
    var week := Since(table, WeekStartTime(now));
    SinceKeepsOrder(table, WeekStartTime(now));
    if |week| > 50 {
      assert forall m :: 0 <= m < 50 ==> week[..50][m] == week[m];
    }
  }

  /** `get_weekly_top_scores` over the `test_results` table, listed in the query's
      order; a store failure gives the empty board. */
  method WeeklyTop(table: seq<ScoreRow>, profiles: map<int, Profile>, now: int, fault: bool)
    returns (board: seq<Ranked>)
    ensures fault ==> board == []
    ensures !fault ==> board == WeeklyBoard(WeeklyQuery(table, now), profiles)
  {
    if fault {
      return [];
    }
    var es := BestScores(WeeklyQuery(table, now));
    var top := Top10(SortDesc(es));
    board := [];
    var i := 0;
    while i < |top|
      invariant 0 <= i <= |top|
      invariant board + Named(top[i..], profiles) == Named(top, profiles)
    {
      NamedStep(top, i, profiles);
      var e := top[i];
      if e.userId in profiles {
        board := board + [Ranked(e.userId, DisplayName(profiles[e.userId]), e.score)];
      }
      i := i + 1;
    }
    assert top[i..] == [];
  }

  // ---------------------------------------------------------------------------
  // Ties on the weekly board

  /** The position of the user's first row, or `|rows|` when there is none. */
  function FirstRowOf(rows: seq<ScoreRow>, u: int): (k: nat)
    ensures k <= |rows|
    ensures k < |rows| ==> rows[k].userId == u
    decreases |rows|
  {
    if rows == [] then 0
    else
      var init := rows[..|rows| - 1];
      var k := FirstRowOf(init, u);
      if k < |init| then k
      else if rows[|rows| - 1].userId == u then |init| else |rows|
  }

  /** No row before the first row is the user's, and a user with a row is found. */
  lemma {:induction false} FirstRowIsFirst(rows: seq<ScoreRow>, u: int)
    ensures forall j :: 0 <= j < FirstRowOf(rows, u) ==> rows[j].userId != u
    ensures FirstRowOf(rows, u) == |rows| <==> forall j :: 0 <= j < |rows| ==> rows[j].userId != u
    decreases |rows|
  {
    if rows != [] {
      var init := rows[..|rows| - 1];
      FirstRowIsFirst(init, u);
      assert forall j :: 0 <= j < |init| ==> init[j] == rows[j];
    }
  }

  lemma FirstRowOfAppend(init: seq<ScoreRow>, r: ScoreRow, u: int)
    ensures FirstRowOf(init + [r], u) ==
              if FirstRowOf(init, u) < |init| then FirstRowOf(init, u)
              else if r.userId == u then |init| else |init| + 1
  {
    assert (init + [r])[..|init|] == init;
  }

  /** Every entry's user has a row, and the entries are in the order their users
      first appear in `rows`. */
  predicate FirstSeenOrder(es: seq<Entry>, rows: seq<ScoreRow>)
  {
    (forall i :: 0 <= i < |es| ==> FirstRowOf(rows, es[i].userId) < |rows|)
    && forall i, j :: 0 <= i < j < |es| ==> FirstRowOf(rows, es[i].userId) < FirstRowOf(rows, es[j].userId)
  }

  /** Every user with a row has an entry. */
  ghost predicate ListsEveryUser(es: seq<Entry>, rows: seq<ScoreRow>)
  {
    forall u :: FirstRowOf(rows, u) < |rows| ==> IndexOf(es, u).Some?
  }

  /** The entries' users keep their first rows when `r` is appended. */
  predicate Unmoved(es: seq<Entry>, init: seq<ScoreRow>, r: ScoreRow)
  {
    forall i :: 0 <= i < |es| ==> FirstRowOf(init + [r], es[i].userId) == FirstRowOf(init, es[i].userId)
  }

  /** The grouping dictionary keeps insertion order: users are listed in the order of
      their first row, and every user with a row is listed. */
  lemma {:induction false} BestOfFirstSeen(rows: seq<ScoreRow>)
    ensures FirstSeenOrder(BestOf(rows), rows) && ListsEveryUser(BestOf(rows), rows)
    decreases |rows|
  {
    if rows != [] {
      var init := rows[..|rows| - 1];
      var r := rows[|rows| - 1];
      assert rows == init + [r];
      BestOfFirstSeen(init);
      var es0 := BestOf(init);
      UnmovedEntries(es0, init, r);
      PutListsEveryUser(es0, init, r);
      if IndexOf(es0, r.userId).None? {
        FirstRowOfAppend(init, r, r.userId);
        PutNewFirstSeen(es0, init, r);
      } else {
        PutKnownFirstSeen(es0, init, r);
      }
    }
  }

  lemma UnmovedEntries(es: seq<Entry>, init: seq<ScoreRow>, r: ScoreRow)
    requires forall i :: 0 <= i < |es| ==> FirstRowOf(init, es[i].userId) < |init|
    ensures Unmoved(es, init, r)
  {
    forall i | 0 <= i < |es| ensures FirstRowOf(init + [r], es[i].userId) == FirstRowOf(init, es[i].userId) {
      FirstRowOfAppend(init, r, es[i].userId);
    }
  }

  lemma PutListsEveryUser(es0: seq<Entry>, init: seq<ScoreRow>, r: ScoreRow)
    requires ListsEveryUser(es0, init)
    ensures ListsEveryUser(Put(es0, r), init + [r])
  {
    var es := Put(es0, r);
    forall u | FirstRowOf(init + [r], u) < |init| + 1 ensures IndexOf(es, u).Some? {
      FirstRowOfAppend(init, r, u);
      match IndexOf(es0, r.userId)
      case None => IndexOfAppend(es0, Entry(r.userId, r.score), u);
      case Some(k) =>
        if es != es0 {
          IndexOfUpdate(es0, k, Entry(r.userId, r.score), u);
        }
    }
  }

  lemma PutNewFirstSeen(es0: seq<Entry>, init: seq<ScoreRow>, r: ScoreRow)
    requires FirstSeenOrder(es0, init) && Unmoved(es0, init, r)
    requires IndexOf(es0, r.userId).None? && FirstRowOf(init + [r], r.userId) == |init|
    ensures FirstSeenOrder(Put(es0, r), init + [r])
  {
    var rows := init + [r];
    var es := es0 + [Entry(r.userId, r.score)];
    assert Put(es0, r) == es;
    forall i | 0 <= i < |es| ensures FirstRowOf(rows, es[i].userId) < |rows| {
      if i < |es0| { assert es[i] == es0[i]; }
    }
    forall i, j | 0 <= i < j < |es| ensures FirstRowOf(rows, es[i].userId) < FirstRowOf(rows, es[j].userId) {
      assert es[i] == es0[i];
      if j < |es0| { assert es[j] == es0[j]; }
    }
  }

  lemma PutKnownFirstSeen(es0: seq<Entry>, init: seq<ScoreRow>, r: ScoreRow)
    requires FirstSeenOrder(es0, init) && Unmoved(es0, init, r)
    requires IndexOf(es0, r.userId).Some?
    ensures FirstSeenOrder(Put(es0, r), init + [r])
  {
    var es := Put(es0, r);
    assert forall i :: 0 <= i < |es| ==> es[i].userId == es0[i].userId;
  }

  /** With the rows in query order a user's first row holds their best score, so the
      grouping never raises an entry: each entry is its user's first row. */
  predicate AtFirstRow(es: seq<Entry>, rows: seq<ScoreRow>)
  {
    forall i :: 0 <= i < |es| ==>
      FirstRowOf(rows, es[i].userId) < |rows| && es[i].score == rows[FirstRowOf(rows, es[i].userId)].score
  }

  lemma {:induction false} BestIsFirstRow(rows: seq<ScoreRow>)
    requires QueryOrdered(rows)
    ensures AtFirstRow(BestOf(rows), rows)
    decreases |rows|
  {
    if rows != [] {
      var init := rows[..|rows| - 1];
      var r := rows[|rows| - 1];
      assert rows == init + [r];
      assert forall m :: 0 <= m < |init| ==> init[m] == rows[m];
      BestIsFirstRow(init);
      BestOfFirstSeen(init);
      var es0 := BestOf(init);
      UnmovedEntries(es0, init, r);
      PutAtFirstRow(es0, init, r);
    }
  }

  lemma PutAtFirstRow(es0: seq<Entry>, init: seq<ScoreRow>, r: ScoreRow)
    requires QueryOrdered(init + [r])
    requires AtFirstRow(es0, init) && Unmoved(es0, init, r) && ListsEveryUser(es0, init)
    ensures AtFirstRow(Put(es0, r), init + [r])
  {
    var rows := init + [r];
    assert forall m :: 0 <= m < |init| ==> rows[m] == init[m];
    FirstRowOfAppend(init, r, r.userId);
    if IndexOf(es0, r.userId).None? {
      var es := es0 + [Entry(r.userId, r.score)];
      assert Put(es0, r) == es;
      assert forall i :: 0 <= i < |es0| ==> es[i] == es0[i];
    } else {
      var k := IndexOf(es0, r.userId).value;
      var f := FirstRowOf(init, r.userId);
      assert f < |init| && es0[k].score == rows[f].score;
      assert rows[f].score >= rows[|init|].score;
    }
  }

  /** Entries of equal score are ordered by `seen` of their users. */
  predicate TiesInOrder(es: seq<Entry>, seen: int -> int)
  {
    forall i, j :: 0 <= i < j < |es| && es[i].score == es[j].score ==> seen(es[i].userId) <= seen(es[j].userId)
  }

  lemma ConsTies(h: Entry, t: seq<Entry>, seen: int -> int)
    requires TiesInOrder(t, seen)
    requires forall j :: 0 <= j < |t| && t[j].score == h.score ==> seen(h.userId) <= seen(t[j].userId)
    ensures TiesInOrder([h] + t, seen)
  {
    var c := [h] + t;
    forall i, j | 0 <= i < j < |c| && c[i].score == c[j].score ensures seen(c[i].userId) <= seen(c[j].userId) {
      assert c[j] == t[j - 1];
      if i > 0 { assert c[i] == t[i - 1]; }
    }
  }

  lemma {:induction false} InsertTies(x: Entry, s: seq<Entry>, seen: int -> int)
    requires TiesInOrder(s, seen)
    requires forall i :: 0 <= i < |s| && s[i].score == x.score ==> seen(x.userId) <= seen(s[i].userId)
    ensures TiesInOrder(Insert(x, s), seen)
    decreases |s|
  {
    if s == [] || s[0].score <= x.score {
      ConsTies(x, s, seen);
    } else {
      var tail := s[1..];
      assert TiesInOrder(tail, seen) by {
        assert forall m :: 0 <= m < |tail| ==> tail[m] == s[m + 1];
      }
      InsertTies(x, tail, seen);
      InsertElements(x, tail);
      var t := Insert(x, tail);
      forall j | 0 <= j < |t| && t[j].score == s[0].score ensures seen(s[0].userId) <= seen(t[j].userId) {
        var k :| 0 <= k < |tail| && tail[k] == t[j];
        assert s[k + 1] == t[j];
      }
      ConsTies(s[0], t, seen);
    }
  }

  /** The stable sort keeps entries of equal score in their input order. */
  lemma {:induction false} SortTies(es: seq<Entry>, seen: int -> int)
    requires forall i, j :: 0 <= i < j < |es| ==> seen(es[i].userId) < seen(es[j].userId)
    ensures TiesInOrder(SortDesc(es), seen)
    decreases |es|
  {
    if es != [] {
      var tail := es[1..];
      assert forall m :: 0 <= m < |tail| ==> tail[m] == es[m + 1];
      SortTies(tail, seen);
      var s := SortDesc(tail);
      forall i | 0 <= i < |s| && s[i].score == es[0].score ensures seen(es[0].userId) <= seen(s[i].userId) {
        assert s[i] in multiset(tail);
        var k :| 0 <= k < |tail| && tail[k] == s[i];
        assert es[k + 1] == s[i];
      }
      InsertTies(es[0], s, seen);
    }
  }

  /** Lines of equal score are ordered by `seen` of their users. */
  predicate LineTiesInOrder(board: seq<Ranked>, seen: int -> int)
  {
    forall i, j :: 0 <= i < j < |board| && board[i].score == board[j].score ==> seen(board[i].userId) <= seen(board[j].userId)
  }

  lemma ConsLineTies(h: Ranked, t: seq<Ranked>, seen: int -> int)
    requires LineTiesInOrder(t, seen)
    requires forall j :: 0 <= j < |t| && t[j].score == h.score ==> seen(h.userId) <= seen(t[j].userId)
    ensures LineTiesInOrder([h] + t, seen)
  {
    var c := [h] + t;
    forall i, j | 0 <= i < j < |c| && c[i].score == c[j].score ensures seen(c[i].userId) <= seen(c[j].userId) {
      assert c[j] == t[j - 1];
      if i > 0 { assert c[i] == t[i - 1]; }
    }
  }

  lemma {:induction false} NamedTies(es: seq<Entry>, profiles: map<int, Profile>, seen: int -> int)
    requires TiesInOrder(es, seen)
    ensures LineTiesInOrder(Named(es, profiles), seen)
    decreases |es|
  {
    if es != [] {
      var tail := es[1..];
      assert TiesInOrder(tail, seen) by {
        assert forall m :: 0 <= m < |tail| ==> tail[m] == es[m + 1];
      }
      NamedTies(tail, profiles, seen);
      var rest := Named(tail, profiles);
      if es[0].userId in profiles {
        var head := Ranked(es[0].userId, DisplayName(profiles[es[0].userId]), es[0].score);
        forall j | 0 <= j < |rest| && rest[j].score == head.score ensures seen(head.userId) <= seen(rest[j].userId) {
          var e := Entry(rest[j].userId, rest[j].score);
          var k :| 0 <= k < |tail| && tail[k] == e;
          assert es[k + 1] == e;
        }
        ConsLineTies(head, rest, seen);
      }
    }
  }

  /** Each line's score is its user's first row. */
  predicate LinesAtFirstRow(board: seq<Ranked>, rows: seq<ScoreRow>)
  {
    forall m :: 0 <= m < |board| ==>
      FirstRowOf(rows, board[m].userId) < |rows| && rows[FirstRowOf(rows, board[m].userId)].score == board[m].score
  }

  /** Ties on the weekly board, for rows in the query's order: each line's score is
      its user's first row, the row where they first reached it, and of two lines
      with equal scores the user who reached the score earlier comes first. */
  lemma WeeklyTiesByTime(rows: seq<ScoreRow>, profiles: map<int, Profile>)
    requires QueryOrdered(rows)
    ensures LinesAtFirstRow(WeeklyBoard(rows, profiles), rows)
    ensures var board := WeeklyBoard(rows, profiles);
            forall m, n :: 0 <= m < n < |board| && board[m].score == board[n].score ==>
              rows[FirstRowOf(rows, board[m].userId)].createdAt <= rows[FirstRowOf(rows, board[n].userId)].createdAt
  {
    var seen := u => FirstRowOf(rows, u);
    var board := WeeklyBoard(rows, profiles);
    BoardAtFirstRow(rows, profiles);
    BoardTiesBySeen(rows, profiles, seen);
    forall m, n | 0 <= m < n < |board| && board[m].score == board[n].score
      ensures rows[FirstRowOf(rows, board[m].userId)].createdAt <= rows[FirstRowOf(rows, board[n].userId)].createdAt
    {
      assert seen(board[m].userId) <= seen(board[n].userId);
    }
  }

  lemma BoardAtFirstRow(rows: seq<ScoreRow>, profiles: map<int, Profile>)
    requires QueryOrdered(rows)
    ensures LinesAtFirstRow(WeeklyBoard(rows, profiles), rows)
  {
    var es := BestOf(rows);
    BestIsFirstRow(rows);
    var top := Top10(SortDesc(es));
    var board := Named(top, profiles);
    forall m | 0 <= m < |board|
      ensures FirstRowOf(rows, board[m].userId) < |rows| && rows[FirstRowOf(rows, board[m].userId)].score == board[m].score
    {
      var e := Entry(board[m].userId, board[m].score);
      var t :| 0 <= t < |top| && top[t] == e;
      assert e in multiset(SortDesc(es));
      var k :| 0 <= k < |es| && es[k] == e;
    }
  }

  lemma BoardTiesBySeen(rows: seq<ScoreRow>, profiles: map<int, Profile>, seen: int -> int)
    requires forall u :: seen(u) == FirstRowOf(rows, u)
    ensures LineTiesInOrder(WeeklyBoard(rows, profiles), seen)
  {
    var es := BestOf(rows);
    BestOfFirstSeen(rows);
    SortTies(es, seen);
    var sorted := SortDesc(es);
    var top := Top10(sorted);
    assert forall m :: 0 <= m < |top| ==> top[m] == sorted[m];
    NamedTies(top, profiles, seen);
  }

  // ---------------------------------------------------------------------------
  // The streak board

  /** One row of the streak query (at most 20, longest current streak first). */
  datatype StreakRow = StreakRow(userId: int, friendId: int, current: nat)

  /** A line of the streak board. */
  datatype PairLine = PairLine(user1: int, user2: int, name1: Option<string>, name2: Option<string>, streak: nat)

  /** `tuple(sorted([a, b]))`: the same key for both orientations of a pair. */
  function PairKey(a: int, b: int): (key: (int, int))
    ensures key.0 <= key.1
    ensures key == (a, b) || key == (b, a)
  {
    if a <= b then (a, b) else (b, a)
  }

  lemma PairKeySymmetric(a: int, b: int)
    ensures PairKey(a, b) == PairKey(b, a)
  {
  }

  predicate StreaksDescending(rows: seq<StreakRow>)
  {
    forall i, j :: 0 <= i < j < |rows| ==> rows[i].current >= rows[j].current
  }

  function LineKeys(board: seq<PairLine>): (keys: set<(int, int)>)
    ensures forall m :: 0 <= m < |board| ==> PairKey(board[m].user1, board[m].user2) in keys
    decreases |board|
  {
    if board == [] then {}
    else
      var rest := LineKeys(board[1..]);
      assert forall m :: 1 <= m < |board| ==> board[m] == board[1..][m - 1];
      {PairKey(board[0].user1, board[0].user2)} + rest
  }

  lemma {:induction false} LineKeysAppend(board: seq<PairLine>, line: PairLine)
    ensures LineKeys(board + [line]) == LineKeys(board) + {PairKey(line.user1, line.user2)}
    decreases |board|
  {
    if board != [] {
      assert (board + [line])[1..] == board[1..] + [line];
      LineKeysAppend(board[1..], line);
    } else {
      assert ([line])[1..] == [];
    }
  }

  lemma {:induction false} LineKeysMember(board: seq<PairLine>, key: (int, int))
    requires key in LineKeys(board)
    ensures exists m :: 0 <= m < |board| && PairKey(board[m].user1, board[m].user2) == key
    decreases |board|
  {
    if PairKey(board[0].user1, board[0].user2) != key {
      LineKeysMember(board[1..], key);
      var m :| 0 <= m < |board[1..]| && PairKey(board[1..][m].user1, board[1..][m].user2) == key;
      assert board[m + 1] == board[1..][m];
    }
  }

  /** The line a row produces when both users have a profile. */
  function LineOf(r: StreakRow, profiles: map<int, Profile>): PairLine
    requires r.userId in profiles && r.friendId in profiles
  {
    PairLine(r.userId, r.friendId, DisplayName(profiles[r.userId]), DisplayName(profiles[r.friendId]), r.current)
  }

  function LineKey(line: PairLine): (int, int)
  {
    PairKey(line.user1, line.user2)
  }

  /** The loop of `get_longest_streaks` from some row on, given the pairs seen so far
      and the lines collected so far: a zero streak or an already seen pair is
      skipped; a new pair is marked seen and, when both users have a profile,
      listed; the loop stops once ten lines are listed. */
  function Scan(rows: seq<StreakRow>, profiles: map<int, Profile>, seen: set<(int, int)>, board: seq<PairLine>)
    : seq<PairLine>
    decreases |rows|
  {
    if rows == [] then board
    else
      var r := rows[0];
      var key := PairKey(r.userId, r.friendId);
      if r.current == 0 || key in seen then Scan(rows[1..], profiles, seen, board)
      else if r.userId in profiles && r.friendId in profiles then
        var board' := board + [LineOf(r, profiles)];
        if |board'| >= 10 then board' else Scan(rows[1..], profiles, seen + {key}, board')
      else Scan(rows[1..], profiles, seen + {key}, board)
  }

  /** What `get_longest_streaks` returns for the fetched rows. */
  function StreakBoard(rows: seq<StreakRow>, profiles: map<int, Profile>): seq<PairLine>
  {
    Scan(rows, profiles, {}, [])
  }

  /** `get_longest_streaks` over the streak query (at most 20 rows, longest first);
      a store failure gives the empty board. */
  method LongestStreaks(rows: seq<StreakRow>, profiles: map<int, Profile>, fault: bool)
    returns (board: seq<PairLine>)
    ensures fault ==> board == []
    ensures !fault ==> board == StreakBoard(rows, profiles)
  {
    board := [];
    if fault {
      return;
    }
    var seen: set<(int, int)> := {};
    var i := 0;
    while i < |rows|
      invariant 0 <= i <= |rows| && |board| < 10
      invariant Scan(rows[i..], profiles, seen, board) == StreakBoard(rows, profiles)
    {
      assert rows[i..][1..] == rows[i + 1..];
      var r := rows[i];
      var key := PairKey(r.userId, r.friendId);
      if r.current != 0 && key !in seen {
        seen := seen + {key};
        if r.userId in profiles && r.friendId in profiles {
          board := board + [LineOf(r, profiles)];
          if |board| >= 10 {
            break;
          }
        }
      }
      i := i + 1;
    }
    assert i == |rows| ==> rows[i..] == [];
  }

  predicate DistinctKeys(board: seq<PairLine>)
  {
    forall i, j :: 0 <= i < j < |board| ==> LineKey(board[i]) != LineKey(board[j])
  }

  predicate LinesDescending(board: seq<PairLine>)
  {
    forall i, j :: 0 <= i < j < |board| ==> board[i].streak >= board[j].streak
  }

  /** Every line is a listed row: a row with a running streak whose two users have profiles. */
  ghost predicate FromRows(board: seq<PairLine>, rows: seq<StreakRow>, profiles: map<int, Profile>)
  {
    forall m :: 0 <= m < |board| ==>
      board[m].streak > 0 &&
      exists k :: 0 <= k < |rows| && rows[k].userId in profiles && rows[k].friendId in profiles
                  && board[m] == LineOf(rows[k], profiles)
  }

  lemma {:induction false} ScanBounded(rows: seq<StreakRow>, profiles: map<int, Profile>, seen: set<(int, int)>, board: seq<PairLine>)
    requires |board| < 10
    ensures |Scan(rows, profiles, seen, board)| <= 10
    decreases |rows|
  {
    if rows != [] {
      var key := PairKey(rows[0].userId, rows[0].friendId);
      if rows[0].current == 0 || key in seen {
        ScanBounded(rows[1..], profiles, seen, board);
      } else if rows[0].userId in profiles && rows[0].friendId in profiles {
        if |board| + 1 < 10 {
          ScanBounded(rows[1..], profiles, seen + {key}, board + [LineOf(rows[0], profiles)]);
        }
      } else {
        ScanBounded(rows[1..], profiles, seen + {key}, board);
      }
    }
  }

  lemma {:induction false} ScanDistinct(rows: seq<StreakRow>, profiles: map<int, Profile>, seen: set<(int, int)>, board: seq<PairLine>)
    requires DistinctKeys(board) && LineKeys(board) <= seen
    ensures DistinctKeys(Scan(rows, profiles, seen, board))
    decreases |rows|
  {
    if rows != [] {
      var r := rows[0];
      var key := PairKey(r.userId, r.friendId);
      if r.current == 0 || key in seen {
        ScanDistinct(rows[1..], profiles, seen, board);
      } else if r.userId in profiles && r.friendId in profiles {
        var line := LineOf(r, profiles);
        var board' := board + [line];
        LineKeysAppend(board, line);
        forall i, j | 0 <= i < j < |board'| ensures LineKey(board'[i]) != LineKey(board'[j]) {
          assert LineKey(board'[i]) in LineKeys(board) || i == |board|;
        }
        if |board'| < 10 {
          ScanDistinct(rows[1..], profiles, seen + {key}, board');
        }
      } else {
        ScanDistinct(rows[1..], profiles, seen + {key}, board);
      }
    }
  }

  lemma {:induction false} ScanDescending(rows: seq<StreakRow>, profiles: map<int, Profile>, seen: set<(int, int)>, board: seq<PairLine>)
    requires StreaksDescending(rows) && LinesDescending(board)
    requires forall m, k :: 0 <= m < |board| && 0 <= k < |rows| ==> board[m].streak >= rows[k].current
    ensures LinesDescending(Scan(rows, profiles, seen, board))
    decreases |rows|
  {
    if rows != [] {
      var r := rows[0];
      var tail := rows[1..];
      assert forall k :: 0 <= k < |tail| ==> tail[k] == rows[k + 1];
      var key := PairKey(r.userId, r.friendId);
      if r.current == 0 || key in seen {
        ScanDescending(tail, profiles, seen, board);
      } else if r.userId in profiles && r.friendId in profiles {
        var board' := board + [LineOf(r, profiles)];
        assert forall m :: 0 <= m < |board| ==> board'[m] == board[m];
        if |board'| < 10 {
          ScanDescending(tail, profiles, seen + {key}, board');
        }
      } else {
        ScanDescending(tail, profiles, seen + {key}, board);
      }
    }
  }

  lemma {:induction false} ScanFromRows(rows: seq<StreakRow>, profiles: map<int, Profile>, seen: set<(int, int)>,
                                        board: seq<PairLine>, all: seq<StreakRow>)
    requires FromRows(board, all, profiles)
    requires forall k :: 0 <= k < |rows| ==> rows[k] in all
    ensures FromRows(Scan(rows, profiles, seen, board), all, profiles)
    decreases |rows|
  {
    if rows != [] {
      var r := rows[0];
      assert forall k :: 0 <= k < |rows[1..]| ==> rows[1..][k] == rows[k + 1];
      var key := PairKey(r.userId, r.friendId);
      if r.current == 0 || key in seen {
        ScanFromRows(rows[1..], profiles, seen, board, all);
      } else if r.userId in profiles && r.friendId in profiles {
        var board' := board + [LineOf(r, profiles)];
        assert r in all;
        forall m | 0 <= m < |board'|
          ensures board'[m].streak > 0 &&
                  exists k :: 0 <= k < |all| && all[k].userId in profiles && all[k].friendId in profiles
                              && board'[m] == LineOf(all[k], profiles)
        {
          if m < |board| {
            assert board'[m] == board[m];
          } else {
            var k :| 0 <= k < |all| && all[k] == r;
          }
        }
        if |board'| < 10 {
          ScanFromRows(rows[1..], profiles, seen + {key}, board', all);
        }
      } else {
        ScanFromRows(rows[1..], profiles, seen + {key}, board, all);
      }
    }
  }

  /** A board that stops short of ten lines lists every pair that has a running streak
      and two profiles. */
  lemma {:induction false} ScanComplete(rows: seq<StreakRow>, profiles: map<int, Profile>, seen: set<(int, int)>, board: seq<PairLine>)
    requires forall p :: p in seen && p.0 in profiles && p.1 in profiles ==> p in LineKeys(board)
    ensures |Scan(rows, profiles, seen, board)| < 10 ==>
              forall k :: 0 <= k < |rows| && rows[k].current > 0 && rows[k].userId in profiles && rows[k].friendId in profiles
                ==> PairKey(rows[k].userId, rows[k].friendId) in LineKeys(Scan(rows, profiles, seen, board))
    decreases |rows|
  {
    if rows != [] {
      var r := rows[0];
      var tail := rows[1..];
      var key := PairKey(r.userId, r.friendId);
      var result := Scan(rows, profiles, seen, board);
      var seen' := if r.current == 0 || key in seen then seen else seen + {key};
      var board' := if r.current != 0 && key !in seen && r.userId in profiles && r.friendId in profiles
                    then board + [LineOf(r, profiles)] else board;
      if board' != board {
        LineKeysAppend(board, LineOf(r, profiles));
      }
      assert LineKeys(board) <= LineKeys(board');
      assert forall p :: p in seen' && p.0 in profiles && p.1 in profiles ==> p in LineKeys(board');
      if |board'| < 10 || board' == board {
        assert result == Scan(tail, profiles, seen', board');
        ScanComplete(tail, profiles, seen', board');
        ScanKeysGrow(tail, profiles, seen', board');
        if |result| < 10 {
          forall k | 0 <= k < |rows| && rows[k].current > 0 && rows[k].userId in profiles && rows[k].friendId in profiles
            ensures PairKey(rows[k].userId, rows[k].friendId) in LineKeys(result)
          {
            if k > 0 {
              assert rows[k] == tail[k - 1];
            } else {
              assert key in seen';
            }
          }
        }
      }
    }
  }

  lemma {:induction false} ScanKeysGrow(rows: seq<StreakRow>, profiles: map<int, Profile>, seen: set<(int, int)>, board: seq<PairLine>)
    ensures LineKeys(board) <= LineKeys(Scan(rows, profiles, seen, board))
    decreases |rows|
  {
    if rows != [] {
      var r := rows[0];
      var key := PairKey(r.userId, r.friendId);
      if r.current == 0 || key in seen {
        ScanKeysGrow(rows[1..], profiles, seen, board);
      } else if r.userId in profiles && r.friendId in profiles {
        var board' := board + [LineOf(r, profiles)];
        LineKeysAppend(board, LineOf(r, profiles));
        if |board'| < 10 {
          ScanKeysGrow(rows[1..], profiles, seen + {key}, board');
        }
      } else {
        ScanKeysGrow(rows[1..], profiles, seen + {key}, board);
      }
    }
  }

  /** The streak board: at most ten lines, longest streak first, no pair twice, each
      line a running streak between two users with profiles; and if it has fewer than
      ten lines, every such pair among the fetched rows is on it. */
  lemma StreakBoardShape(rows: seq<StreakRow>, profiles: map<int, Profile>)
    requires StreaksDescending(rows)
    ensures |StreakBoard(rows, profiles)| <= 10
    ensures DistinctKeys(StreakBoard(rows, profiles))
    ensures LinesDescending(StreakBoard(rows, profiles))
    ensures FromRows(StreakBoard(rows, profiles), rows, profiles)
    ensures |StreakBoard(rows, profiles)| < 10 ==>
              forall k :: 0 <= k < |rows| && rows[k].current > 0 && rows[k].userId in profiles && rows[k].friendId in profiles
                ==> PairKey(rows[k].userId, rows[k].friendId) in LineKeys(StreakBoard(rows, profiles))
  {
    ScanBounded(rows, profiles, {}, []);
    ScanDistinct(rows, profiles, {}, []);
    ScanDescending(rows, profiles, {}, []);
    ScanFromRows(rows, profiles, {}, [], rows);
    ScanComplete(rows, profiles, {}, []);
  }

  // ---------------------------------------------------------------------------
  // Rank lookups

  /** The 1-based position of the user's first line on the weekly board, 0 if none. */
  function WeeklyRankOf(u: int, board: seq<Ranked>): (rank: nat)
    ensures rank <= |board|
    ensures rank == 0 <==> forall m :: 0 <= m < |board| ==> board[m].userId != u
    ensures rank > 0 ==> board[rank - 1].userId == u && forall m :: 0 <= m < rank - 1 ==> board[m].userId != u
    decreases |board|
  {
    if board == [] then 0
    else if board[0].userId == u then 1
    else
      var r := WeeklyRankOf(u, board[1..]);
      if r == 0 then 0 else r + 1
  }

  /** `get_user_rank_in_weekly`: the user's rank and score, or (0, 0). */
  method WeeklyRank(u: int, board: seq<Ranked>) returns (rank: nat, score: int)
    ensures rank == WeeklyRankOf(u, board)
    ensures rank == 0 ==> score == 0
    ensures rank > 0 ==> score == board[rank - 1].score
  {
    var i := 0;
    while i < |board|
      invariant 0 <= i <= |board|
      invariant forall m :: 0 <= m < i ==> board[m].userId != u
    {
      if board[i].userId == u {
        RankOfFirstMatch(u, board, i);
        return i + 1, board[i].score;
      }
      i := i + 1;
    }
    return 0, 0;
  }

  lemma RankOfFirstMatch(u: int, board: seq<Ranked>, i: nat)
    requires i < |board| && board[i].userId == u
    requires forall m :: 0 <= m < i ==> board[m].userId != u
    ensures WeeklyRankOf(u, board) == i + 1
  {
    var r := WeeklyRankOf(u, board);
    assert r != 0;
    assert r - 1 <= i && !(r - 1 < i);
  }

  predicate OnLine(u: int, line: PairLine)
  {
    line.user1 == u || line.user2 == u
  }

  /** `get_user_rank_in_streaks`: the first line on which the user is either member,
      with its streak, or (0, 0). */
  method StreakRank(u: int, board: seq<PairLine>) returns (rank: nat, days: nat)
    ensures rank <= |board|
    ensures rank == 0 <==> forall m :: 0 <= m < |board| ==> !OnLine(u, board[m])
    ensures rank == 0 ==> days == 0
    ensures rank > 0 ==> OnLine(u, board[rank - 1]) && days == board[rank - 1].streak
                         && forall m :: 0 <= m < rank - 1 ==> !OnLine(u, board[m])
  {
    var i := 0;
    while i < |board|
      invariant 0 <= i <= |board|
      invariant forall m :: 0 <= m < i ==> !OnLine(u, board[m])
    {
      if OnLine(u, board[i]) {
        return i + 1, board[i].streak;
      }
      i := i + 1;
    }
    return 0, 0;
  }

  // ---------------------------------------------------------------------------
  // The "your rank" line of the leaderboard screen

  /** As written: the line is added when the rank found on the weekly board is above
      10. The board never has more than ten lines, so this never happens. */
  predicate ShowsWeeklyRankLine(u: int, board: seq<Ranked>)
  {
    WeeklyRankOf(u, board) > 10
  }

  lemma WeeklyRankLineNeverShown(rows: seq<ScoreRow>, profiles: map<int, Profile>, u: int)
    ensures !ShowsWeeklyRankLine(u, WeeklyBoard(rows, profiles))
  {
    WeeklyBoardShape(rows, profiles);
  }

  /** Corrected: the rank is looked up in the full ranking of the week's best scores
      (the sorted dictionary before the cut to ten), so a user outside the top ten
      gets their own position. */
  function YourWeeklyRank(u: int, rows: seq<ScoreRow>): (line: Option<(nat, int)>)
    ensures line.Some? ==> line.value.0 > 10
  {
    var ranking := SortDesc(BestOf(rows));
    var k := IndexOf(ranking, u);
    if k.Some? && k.value + 1 > 10 then Some((k.value + 1, ranking[k.value].score)) else None
  }

  /** The corrected line appears exactly for a user who has a result this week but is
      not among the ten best. */
  lemma YourWeeklyRankShown(u: int, rows: seq<ScoreRow>)
    ensures YourWeeklyRank(u, rows).Some? <==>
              (exists i :: 0 <= i < |rows| && rows[i].userId == u) &&
              forall m :: 0 <= m < |Top10(SortDesc(BestOf(rows)))| ==> Top10(SortDesc(BestOf(rows)))[m].userId != u
  {
    var es := BestOf(rows);
    var ranking := SortDesc(es);
    var top := Top10(ranking);
    var k := IndexOf(ranking, u);
    assert forall m :: 0 <= m < |top| ==> top[m] == ranking[m];
    if exists i :: 0 <= i < |rows| && rows[i].userId == u {
      var i :| 0 <= i < |rows| && rows[i].userId == u;
      UserRanked(rows, i);
    }
    if k.Some? {
      RankedUserHasRow(rows, ranking[k.value]);
    }
  }

  /** Every user with a row this week is in the full ranking. */
  lemma UserRanked(rows: seq<ScoreRow>, i: nat)
    requires i < |rows|
    ensures IndexOf(SortDesc(BestOf(rows)), rows[i].userId).Some?
  {
    var es := BestOf(rows);
    BestOfGroups(rows);
    SortDescCorrect(es);
    EntriesHasRow(rows, i);
    var p := IndexOf(es, rows[i].userId).value;
    assert es[p] in multiset(SortDesc(es));
  }

  lemma RankedUserHasRow(rows: seq<ScoreRow>, e: Entry)
    requires e in SortDesc(BestOf(rows))
    ensures exists i :: 0 <= i < |rows| && rows[i].userId == e.userId && rows[i].score == e.score
    ensures IsBest(e, rows)
  {
    SortDescCorrect(BestOf(rows));
    assert e in multiset(BestOf(rows));
    BestOfIsBest(rows, e);
    EntriesComeFromRows(rows, e);
  }

  /** The corrected line shows the user's best score of the week. */
  lemma YourWeeklyRankScore(u: int, rows: seq<ScoreRow>)
    requires YourWeeklyRank(u, rows).Some?
    ensures IsBest(Entry(u, YourWeeklyRank(u, rows).value.1), rows)
  {
    var ranking := SortDesc(BestOf(rows));
    RankedUserHasRow(rows, ranking[IndexOf(ranking, u).value]);
  }

  lemma {:induction false} EntriesHasRow(rows: seq<ScoreRow>, i: nat)
    requires i < |rows|
    ensures Entry(rows[i].userId, rows[i].score) in Entries(rows)
    decreases |rows|
  {
    if i < |rows| - 1 {
      EntriesHasRow(rows[..|rows| - 1], i);
    }
  }

  lemma {:induction false} EntriesComeFromRows(rows: seq<ScoreRow>, e: Entry)
    requires e in Entries(rows)
    ensures exists i :: 0 <= i < |rows| && rows[i].userId == e.userId && rows[i].score == e.score
    decreases |rows|
  {
    var init := rows[..|rows| - 1];
    if e in Entries(init) {
      EntriesComeFromRows(init, e);
      var i :| 0 <= i < |init| && init[i].userId == e.userId && init[i].score == e.score;
      assert rows[i] == init[i];
    }
  }
}
