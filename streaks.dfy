/** The friendship-streak engine: a table of streak rows, one per unordered pair
    of users, and the day-by-day update rule that keeps each row's current and
    longest streak.

    Timestamps are whole UTC day numbers (days since 1970-01-01): the update rule
    only ever compares calendar dates, so the time of day plays no part. */
module FriendshipStreaks {
  import opened Common

  /** One row of the `friendship_streaks` table. `last` is NULL until the first
      interaction. */
  datatype Streak = Streak(id: nat, userId: int, friendId: int,
                           current: nat, longest: nat, last: Option<int>, createdAt: int)

  /** The row belongs to the pair {a, b}, in either orientation. */
  predicate Joins(r: Streak, a: int, b: int)
  {
    (r.userId == a && r.friendId == b) || (r.userId == b && r.friendId == a)
  }

  /** The first row of `rows` that belongs to the pair {a, b}. */
  function FindPair(rows: seq<Streak>, a: int, b: int): (k: Option<nat>)
    ensures k.Some? ==> k.value < |rows| && Joins(rows[k.value], a, b)
                        && forall j :: 0 <= j < k.value ==> !Joins(rows[j], a, b)
    ensures k.None? <==> forall j :: 0 <= j < |rows| ==> !Joins(rows[j], a, b)
    decreases |rows|
  {
    if rows == [] then None
    else if Joins(rows[0], a, b) then Some(0)
    else
      match FindPair(rows[1..], a, b)
      case None => None
      case Some(k) => Some(k + 1)
  }

  /** The pair lookup does not depend on the order in which the two users are given. */
  lemma {:induction false} FindPairSymmetric(rows: seq<Streak>, a: int, b: int)
    ensures FindPair(rows, a, b) == FindPair(rows, b, a)
    decreases |rows|
  {
    if rows != [] && !Joins(rows[0], a, b) {
      assert !Joins(rows[0], b, a);
      FindPairSymmetric(rows[1..], a, b);
    }
  }

  /** The first row with the given id. */
  function FindId(rows: seq<Streak>, id: nat): (k: Option<nat>)
    ensures k.Some? ==> k.value < |rows| && rows[k.value].id == id
                        && forall j :: 0 <= j < k.value ==> rows[j].id != id
    ensures k.None? <==> forall j :: 0 <= j < |rows| ==> rows[j].id != id
    decreases |rows|
  {
    if rows == [] then None
    else if rows[0].id == id then Some(0)
    else
      match FindId(rows[1..], id)
      case None => None
      case Some(k) => Some(k + 1)
  }

  /** The row `get_or_create_streak` inserts for a pair seen for the first time. */
  function Fresh(id: nat, a: int, b: int, now: int): (r: Streak)
    ensures r.id == id && Joins(r, a, b)
    ensures r.current == 0 && r.longest == 0 && r.last.None?
  {
    Streak(id, a, b, 0, 0, None, now)
  }

  /** The invariant every row of the table keeps: the longest streak is never below
      the current one, and a row has a last interaction exactly when its current
      streak has started. */
  predicate WellFormed(r: Streak)
  {
    r.longest >= r.current && (r.last.None? <==> r.current == 0)
  }

  /** The row after an interaction on day `today`. A second interaction on the day
      already recorded changes nothing. Otherwise the streak starts at 1 (first
      interaction), grows by one (the previous interaction was yesterday) or restarts
      at 1 (any other gap, including a clock that went backwards); the longest streak
      takes the new current one if it is larger, and the day is recorded. */
  function Advance(r: Streak, today: int): (s: Streak)
    ensures s.id == r.id && s.userId == r.userId && s.friendId == r.friendId && s.createdAt == r.createdAt
    ensures r.last == Some(today) ==> s == r
    ensures r.last != Some(today) ==> s.last == Some(today)
    ensures r.last.None? ==> s.current == 1
    ensures r.last == Some(today - 1) ==> s.current == r.current + 1
    ensures r.last.Some? && r.last.value != today && r.last.value != today - 1 ==> s.current == 1
    ensures r.last != Some(today) ==> s.longest == if s.current > r.longest then s.current else r.longest
  {
    var current :=
      match r.last
      case None => 1
      case Some(l) => if today - l == 0 then r.current else if today - l == 1 then r.current + 1 else 1;
    if r.last == Some(today) then r
    else
      var longest := if current > r.longest then current else r.longest;
      r.(current := current, longest := longest, last := Some(today))
  }

  /** An update never lowers the longest streak and keeps a well-formed row well formed. */
  lemma AdvanceMonotone(r: Streak, today: int)
    ensures Advance(r, today).longest >= r.longest
    ensures WellFormed(r) ==> WellFormed(Advance(r, today))
  {
  }

  /** Repeating an interaction on the same day is a no-op. */
  lemma AdvanceIdempotent(r: Streak, today: int)
    ensures Advance(Advance(r, today), today) == Advance(r, today)
  {
  }

  // ---------------------------------------------------------------------------
  // What the counters mean over a whole history of interactions

  /** Replays the interaction days, in order, on a row. */
  function Replay(r: Streak, days: seq<int>): (s: Streak)
    ensures s.id == r.id && s.userId == r.userId && s.friendId == r.friendId
    decreases |days|
  {
    if days == [] then r else Advance(Replay(r, days[..|days| - 1]), days[|days| - 1])
  }

  predicate NonDecreasing(days: seq<int>)
  {
    forall i, j :: 0 <= i < j < |days| ==> days[i] <= days[j]
  }

  /** Every one of the `k` days ending with day `d` saw an interaction. */
  ghost predicate HasRun(days: seq<int>, d: int, k: nat)
  {
    forall x :: d - k < x <= d ==> x in days
  }

  /** `s` sums up the history `days`: its last interaction is the latest day, its
      current streak is the length of the unbroken run of days ending there, and its
      longest streak is the length of the longest unbroken run anywhere. */
  ghost predicate Summarises(s: Streak, days: seq<int>)
  {
    days != [] &&
    var latest := days[|days| - 1];
    (forall x :: x in days ==> x <= latest) &&
    s.last == Some(latest) && s.current >= 1 &&
    HasRun(days, latest, s.current) && latest - s.current !in days &&
    (forall d, k: nat :: HasRun(days, d, k) ==> k <= s.longest) &&
    (exists d :: HasRun(days, d, s.longest))
  }

  lemma {:induction false} SummariseFirst(r: Streak, t: int)
    requires r.last.None? && r.longest == 0
    ensures Summarises(Advance(r, t), [t])
  {
    var s := Advance(r, t);
    assert s.current == 1 && s.longest == 1;
    assert HasRun([t], t, 1);
    forall d, k: nat | HasRun([t], d, k) ensures k <= 1 {
      assert k >= 2 ==> d in [t] && d - 1 in [t];
    }
  }

  /** A run that avoids day `t` is unaffected by adding `t` to the history. */
  lemma RunExtends(days: seq<int>, t: int, d: int, k: nat)
    requires HasRun(days, d, k)
    ensures HasRun(days + [t], d, k)
  {
    forall x | d - k < x <= d ensures x in days + [t] {
      assert x in days;
    }
  }

  lemma RunBefore(days: seq<int>, t: int, d: int, k: nat)
    requires HasRun(days + [t], d, k) && d < t
    ensures HasRun(days, d, k)
  {
    forall x | d - k < x <= d ensures x in days {
      assert x in days + [t];
    }
  }

  /** One more interaction, on a day no earlier than the latest, keeps the summary. */
  lemma {:induction false} SummariseStep(s: Streak, days: seq<int>, t: int)
    requires Summarises(s, days) && t >= days[|days| - 1]
    ensures Summarises(Advance(s, t), days + [t])
  {
    var latest := days[|days| - 1];
    var all := days + [t];
    var s' := Advance(s, t);
    assert all[|all| - 1] == t;
    assert forall x :: x in all <==> x in days || x == t;
    assert s.longest >= s.current;
    if t == latest {
      assert s' == s;
      assert forall x :: x in all <==> x in days;
      forall d, k: nat | HasRun(all, d, k) ensures k <= s.longest {
        assert HasRun(days, d, k);
      }
      var d0 :| HasRun(days, d0, s.longest);
      RunExtends(days, t, d0, s.longest);
      RunExtends(days, t, latest, s.current);
    } else {
      if t == latest + 1 {
        assert s'.current == s.current + 1;
        forall x | t - s'.current < x <= t ensures x in all {
          if x < t { assert latest - s.current < x <= latest; }
        }
      } else {
        assert s'.current == 1;
        assert t - 1 !in days;
      }
      assert HasRun(all, t, s'.current);
      forall d, k: nat | HasRun(all, d, k) ensures k <= s'.longest {
        if d < t {
          RunBefore(days, t, d, k);
        } else if k > 0 {
          assert d in all;
          assert d == t;
          if t == latest + 1 {
            assert HasRun(days, latest, k - 1) by {
              forall x | latest - (k - 1) < x <= latest ensures x in days {
                assert x in all && x != t;
              }
            }
            assert k - 1 > s.current ==> latest - s.current in days;
          } else {
            assert k > 1 ==> t - 1 in all;
          }
        }
      }
      if s'.longest == s.longest {
        var d0 :| HasRun(days, d0, s.longest);
        RunExtends(days, t, d0, s.longest);
      }
    }
  }

  /** The meaning of the two counters: replaying a history of interaction days (in
      order, repeats allowed) on a newly created row leaves `current` equal to the
      length of the unbroken run of days ending with the latest interaction and
      `longest` equal to the longest unbroken run in the whole history. */
  lemma {:induction false} ReplaySummarises(r: Streak, days: seq<int>)
    requires r.last.None? && r.longest == 0
    requires days != [] && NonDecreasing(days)
    ensures Summarises(Replay(r, days), days)
    decreases |days|
  {
    var init := days[..|days| - 1];
    var t := days[|days| - 1];
    assert days == init + [t];
    if init == [] {
      SummariseFirst(r, t);
    } else {
      ReplaySummarises(r, init);
      SummariseStep(Replay(r, init), init, t);
    }
  }

  // ---------------------------------------------------------------------------
  // The table

  /** The `friendship_streaks` table. A store failure (an exception from the
      database client) is the `fault` argument of each operation. */
  class StreakStore {
    var rows: seq<Streak>
    var nextId: nat

    /** Ids are unique and below the next id to hand out; every row is well formed. */
    ghost predicate Valid()
      reads this
    {
      (forall i :: 0 <= i < |rows| ==> rows[i].id < nextId && WellFormed(rows[i])) &&
      (forall i, j :: 0 <= i < j < |rows| ==> rows[i].id != rows[j].id)
    }

    constructor ()
      ensures Valid() && rows == [] && nextId == 0
    {
      rows := [];
      nextId := 0;
    }

    /** `get_or_create_streak(a, b)`: the first row of the pair, in either
        orientation, or a newly inserted zeroed row; None when the store fails. */
    method GetOrCreate(a: int, b: int, now: int, fault: bool) returns (r: Option<Streak>)
      requires Valid()
      modifies this
      ensures Valid()
      ensures fault ==> r.None? && rows == old(rows) && nextId == old(nextId)
      ensures !fault && FindPair(old(rows), a, b).Some? ==>
                r == Some(old(rows)[FindPair(old(rows), a, b).value]) &&
                rows == old(rows) && nextId == old(nextId)
      ensures !fault && FindPair(old(rows), a, b).None? ==>
                r == Some(Fresh(old(nextId), a, b, now)) &&
                rows == old(rows) + [r.value] && nextId == old(nextId) + 1
      ensures r.Some? ==> Joins(r.value, a, b) && r.value in rows
    {
      if fault {
        return None;
      }
      var k := FindPair(rows, a, b);
      if k.Some? {
        return Some(rows[k.value]);
      }
      var row := Fresh(nextId, a, b, now);
      rows := rows + [row];
      nextId := nextId + 1;
      return Some(row);
    }

    /** `update_streak(id, ...)`: applies the day rule to the row with this id and
        returns its current streak; 0 when there is no such row or the store fails. */
    method Update(id: nat, today: int, fault: bool) returns (days: nat)
      requires Valid()
      modifies this
      ensures Valid() && nextId == old(nextId)
      ensures fault || FindId(old(rows), id).None? ==> days == 0 && rows == old(rows)
      ensures !fault && FindId(old(rows), id).Some? ==>
                var k := FindId(old(rows), id).value;
                rows == old(rows)[k := Advance(old(rows)[k], today)] && days == rows[k].current
      ensures !fault && FindId(old(rows), id).Some? ==> days >= 1
    {
      if fault {
        return 0;
      }
      var k := FindId(rows, id);
      if k.None? {
        return 0;
      }
      var i := k.value;
      var row := Advance(rows[i], today);
      AdvanceMonotone(rows[i], today);
      rows := rows[i := row];
      days := row.current;
    }
  }

  /** Two interactions on the same day count once: the second update writes nothing
      and reports the same streak. */
  method SameDayTwice(store: StreakStore, id: nat, today: int) returns (first: nat, second: nat)
    requires store.Valid()
    modifies store
    ensures store.Valid()
    ensures second == first
    ensures FindId(old(store.rows), id).None? ==> store.rows == old(store.rows)
    ensures FindId(old(store.rows), id).Some? ==>
              var k := FindId(old(store.rows), id).value;
              store.rows == old(store.rows)[k := Advance(old(store.rows)[k], today)]
  {
    first := store.Update(id, today, false);
    ghost var between := store.rows;
    second := store.Update(id, today, false);
    assert store.rows == between by {
      if FindId(old(store.rows), id).Some? {
        var k := FindId(old(store.rows), id).value;
        assert FindId(between, id) == Some(k) by {
          assert forall j :: 0 <= j < |between| ==> between[j].id == old(store.rows)[j].id;
        }
        AdvanceIdempotent(old(store.rows)[k], today);
      }
    }
  }

  // ---------------------------------------------------------------------------
  // The friends list and the streaks menu

  /** One quiz result on the user's test, as returned by the store. */
  datatype TakerResult = TakerResult(userId: int, score: int)

  datatype Friend = Friend(id: int, name: Option<string>, score: int)

  /** The friends the list shows: the takers that have a profile, in result order,
      each with the profile's display name. */
  function FriendsOf(results: seq<TakerResult>, profiles: map<int, Profile>): (fs: seq<Friend>)
    ensures |fs| <= |results|
    ensures forall i :: 0 <= i < |fs| ==> fs[i].id in profiles && fs[i].name == DisplayName(profiles[fs[i].id])
    decreases |results|
  {
    if results == [] then []
    else
      var rest := FriendsOf(results[1..], profiles);
      var t := results[0];
      if t.userId in profiles then [Friend(t.userId, DisplayName(profiles[t.userId]), t.score)] + rest else rest
  }

  predicate ScoresDescending(results: seq<TakerResult>)
  {
    forall i, j :: 0 <= i < j < |results| ==> results[i].score >= results[j].score
  }

  function TakerIds(results: seq<TakerResult>): set<int>
    decreases |results|
  {
    if results == [] then {} else {results[0].userId} + TakerIds(results[1..])
  }

  function FriendIds(fs: seq<Friend>): set<int>
    decreases |fs|
  {
    if fs == [] then {} else {fs[0].id} + FriendIds(fs[1..])
  }

  /** Every taker with a profile is listed, and every listed friend is such a taker. */
  lemma {:induction false} FriendsOfMembers(results: seq<TakerResult>, profiles: map<int, Profile>)
    ensures FriendIds(FriendsOf(results, profiles)) == TakerIds(results) * profiles.Keys
    decreases |results|
  {
    if results != [] {
      FriendsOfMembers(results[1..], profiles);
      var rest := FriendsOf(results[1..], profiles);
      if results[0].userId in profiles {
        var f := Friend(results[0].userId, DisplayName(profiles[results[0].userId]), results[0].score);
        assert ([f] + rest)[1..] == rest;
      }
    }
  }

  predicate FriendsDescending(fs: seq<Friend>)
  {
    forall i, j :: 0 <= i < j < |fs| ==> fs[i].score >= fs[j].score
  }

  predicate ScoresAtMost(fs: seq<Friend>, bound: int)
  {
    forall i :: 0 <= i < |fs| ==> fs[i].score <= bound
  }

  /** The list keeps the store's order: friends come by descending score, none above
      the best result. */
  lemma {:induction false} FriendsOfDescending(results: seq<TakerResult>, profiles: map<int, Profile>)
    requires ScoresDescending(results)
    ensures FriendsDescending(FriendsOf(results, profiles))
    ensures results != [] ==> ScoresAtMost(FriendsOf(results, profiles), results[0].score)
    decreases |results|
  {
    if results != [] {
      var tail := results[1..];
      assert ScoresDescending(tail) by {
        forall i, j | 0 <= i < j < |tail| ensures tail[i].score >= tail[j].score {
          assert tail[i] == results[i + 1] && tail[j] == results[j + 1];
        }
      }
      FriendsOfDescending(tail, profiles);
      var rest := FriendsOf(tail, profiles);
      assert ScoresAtMost(rest, results[0].score) by {
        if tail != [] { assert tail[0] == results[1]; }
      }
      if results[0].userId in profiles {
        FriendsCons(Friend(results[0].userId, DisplayName(profiles[results[0].userId]), results[0].score), rest);
      }
    }
  }

  lemma FriendsCons(f: Friend, rest: seq<Friend>)
    requires FriendsDescending(rest) && ScoresAtMost(rest, f.score)
    ensures FriendsDescending([f] + rest) && ScoresAtMost([f] + rest, f.score)
  {
    var fs := [f] + rest;
    forall i, j | 0 <= i < j < |fs| ensures fs[i].score >= fs[j].score {
      assert fs[j] == rest[j - 1];
      if i > 0 {
        assert fs[i] == rest[i - 1];
      }
    }
    forall i | 0 <= i < |fs| ensures fs[i].score <= f.score {
      if i > 0 {
        assert fs[i] == rest[i - 1];
      }
    }
  }

  /** `get_user_friends`: the takers of the user's first test, best score first,
      that have a profile. No test, or a store failure, gives the empty list. */
  method FriendsList(tests: seq<int>, resultsOf: map<int, seq<TakerResult>>,
                     profiles: map<int, Profile>, fault: bool)
    returns (friends: seq<Friend>)
    requires forall t :: t in resultsOf ==> ScoresDescending(resultsOf[t])
    ensures fault || tests == [] ==> friends == []
    ensures !fault && tests != [] ==>
              friends == FriendsOf(if tests[0] in resultsOf then resultsOf[tests[0]] else [], profiles)
  {
    if fault || tests == [] {
      return [];
    }
    var results := if tests[0] in resultsOf then resultsOf[tests[0]] else [];
    friends := [];
    var i := 0;
    while i < |results|
      invariant 0 <= i <= |results|
      invariant friends + FriendsOf(results[i..], profiles) == FriendsOf(results, profiles)
    {
      assert results[i..][1..] == results[i + 1..];
      var t := results[i];
      if t.userId in profiles {
        friends := friends + [Friend(t.userId, DisplayName(profiles[t.userId]), t.score)];
      }
      i := i + 1;
    }
    assert results[i..] == [];
  }

  /** The other member of a streak row, seen from user `me`. */
  function Counterpart(r: Streak, me: int): (other: int)
    ensures r.userId == me ==> Joins(r, me, other)
    ensures r.friendId == me ==> Joins(r, me, other)
  {
    if r.userId == me then r.friendId else r.userId
  }

  /** Looking a pair up and then taking the counterpart of one member gives back the other. */
  lemma CounterpartOfPair(rows: seq<Streak>, a: int, b: int)
    requires FindPair(rows, a, b).Some?
    ensures Counterpart(rows[FindPair(rows, a, b).value], a) == b
    ensures Counterpart(rows[FindPair(rows, a, b).value], b) == a
  {
  }
}
