/** The broadcast script: the recipients read from the users table with their
    defaults, MarkdownV2 escaping of a recipient's name, the message chosen by
    language, sending in consecutive batches of 100 with success and failure
    tallies, and the language distribution shown before sending. */
module Broadcast {
  import opened Common

  // ---------------------------------------------------------------------------
  // MarkdownV2 escaping

  /** The characters MarkdownV2 reserves, in the order they are replaced. */
  const Specials: seq<char> := ['_', '*', '[', ']', '(', ')', '~', '`', '>', '#', '+', '-', '=', '|', '{', '}', '.', '!']

  /** The first `i` reserved characters. */
  function SpecialsUpTo(i: nat): (cs: set<char>)
    requires i <= |Specials|
  {
    set j | 0 <= j < i :: Specials[j]
  }

  /** Every character of `cs` gets a backslash in front; the rest stay as they are. */
  function EscapeWith(s: string, cs: set<char>): (t: string)
    decreases |s|
  {
    if s == [] then [] else (if s[0] in cs then ['\\', s[0]] else [s[0]]) + EscapeWith(s[1..], cs)
  }

  /** The escaping as one pass over the text: each reserved character is prefixed
      with a backslash. */
  function EscapeMarkdownV2(s: string): (t: string)
  {
    EscapeWith(s, SpecialsUpTo(|Specials|))
  }

  lemma SpecialsFacts()
    ensures forall a, b :: 0 <= a < b < |Specials| ==> Specials[a] != Specials[b]
    ensures '\\' !in SpecialsUpTo(|Specials|)
  {
  }

  lemma {:induction false} EscapeWithAppend(a: string, b: string, cs: set<char>)
    ensures EscapeWith(a + b, cs) == EscapeWith(a, cs) + EscapeWith(b, cs)
    decreases |a|
  {
    if a == [] {
      assert a + b == b;
    } else {
      assert (a + b)[0] == a[0] && (a + b)[1..] == a[1..] + b;
      EscapeWithAppend(a[1..], b, cs);
    }
  }

  /** Replacing one more reserved character over text already escaped for others
      escapes it for that character as well: a backslash is never reserved, so no
      earlier escape is escaped again. */
  lemma {:induction false} EscapeStep(s: string, cs: set<char>, c: char)
    requires c !in cs && c != '\\' && '\\' !in cs
    ensures ReplaceChar(EscapeWith(s, cs), c, ['\\', c]) == EscapeWith(s, cs + {c})
    decreases |s|
  {
    if s != [] {
      var head := if s[0] in cs then ['\\', s[0]] else [s[0]];
      ReplaceCharAppend(head, EscapeWith(s[1..], cs), c, ['\\', c]);
      EscapeStep(s[1..], cs, c);
      if s[0] in cs {
        assert ReplaceChar(head, c, ['\\', c]) == head by {
          assert head[1..] == [s[0]];
        }
      }
    }
  }

  /** `escape_markdown_v2`: one `replace` per reserved character, in order. */
  method Escape(text: string) returns (out: string)
    ensures out == EscapeMarkdownV2(text)
  {
    out := text;
    var i := 0;
    assert SpecialsUpTo(0) == {};
    EscapeNothing(text);
    while i < |Specials|
      invariant 0 <= i <= |Specials|
      invariant out == EscapeWith(text, SpecialsUpTo(i))
    {
      var c := Specials[i];
      SpecialsStep(i);
      EscapeStep(text, SpecialsUpTo(i), c);
      out := ReplaceChar(out, c, ['\\', c]);
      i := i + 1;
    }
  }

  /** The next reserved character is new, and is not the backslash. */
  lemma SpecialsStep(i: nat)
    requires i < |Specials|
    ensures Specials[i] !in SpecialsUpTo(i) && Specials[i] != '\\' && '\\' !in SpecialsUpTo(i)
    ensures SpecialsUpTo(i + 1) == SpecialsUpTo(i) + {Specials[i]}
  {
    SpecialsFacts();
    assert SpecialsUpTo(i) <= SpecialsUpTo(|Specials|);
  }

  lemma {:induction false} EscapeNothing(s: string)
    ensures EscapeWith(s, {}) == s
    decreases |s|
  {
    if s != [] {
      EscapeNothing(s[1..]);
      assert [s[0]] + s[1..] == s;
    }
  }

  /** How many characters of `s` are reserved. */
  function ReservedCount(s: string): (n: nat)
    ensures n <= |s|
    decreases |s|
  {
    if s == [] then 0 else (if s[0] in SpecialsUpTo(|Specials|) then 1 else 0) + ReservedCount(s[1..])
  }

  /** The escaped text is longer by exactly one backslash per reserved character. */
  lemma {:induction false} EscapedLength(s: string)
    ensures |EscapeMarkdownV2(s)| == |s| + ReservedCount(s)
    decreases |s|
  {
    if s != [] {
      EscapedLength(s[1..]);
    }
  }

  /** Dropping the backslash in front of each reserved character. */
  function Unescape(t: string): (s: string)
    decreases |t|
  {
    if |t| >= 2 && t[0] == '\\' && t[1] in SpecialsUpTo(|Specials|) then [t[1]] + Unescape(t[2..])
    else if t == [] then []
    else [t[0]] + Unescape(t[1..])
  }

  /** Escaped text never starts with a reserved character. */
  lemma EscapedHead(s: string)
    requires s != []
    ensures EscapeMarkdownV2(s)[0] !in SpecialsUpTo(|Specials|)
  {
    SpecialsFacts();
  }

  /** Unescaping gives the original text back, backslashes of its own included. */
  lemma {:induction false} UnescapeEscape(s: string)
    ensures Unescape(EscapeMarkdownV2(s)) == s
    decreases |s|
  {
    if s != [] {
      var rest := EscapeMarkdownV2(s[1..]);
      UnescapeEscape(s[1..]);
      var t := EscapeMarkdownV2(s);
      if s[0] in SpecialsUpTo(|Specials|) {
        SpecialsFacts();
        assert t == ['\\', s[0]] + rest;
        assert t[2..] == rest;
      } else {
        assert t == [s[0]] + rest;
        assert t[1..] == rest;
        if rest != [] {
          EscapedHead(s[1..]);
        }
        assert [s[0]] + s[1..] == s;
      }
    }
  }

  // ---------------------------------------------------------------------------
  // Recipients and messages

  /** A row of `friends_users` as the script reads it. */
  datatype UserRow = UserRow(telegramId: int, firstName: Option<string>, language: Option<string>)

  datatype Recipient = Recipient(id: int, name: string, language: string)

  /** `row["first_name"] or "Friend"` and `row["language"] or "en"`. */
  function RecipientOf(row: UserRow): (r: Recipient)
    ensures r.id == row.telegramId
    ensures r.name == (if Truthy(row.firstName) then row.firstName.value else "Friend")
    ensures r.language == (if Truthy(row.language) then row.language.value else "en")
  {
    Recipient(row.telegramId,
              if Truthy(row.firstName) then row.firstName.value else "Friend",
              if Truthy(row.language) then row.language.value else "en")
  }

  /** No recipient has an empty name or language. */
  lemma RecipientNonEmpty(row: UserRow)
    ensures RecipientOf(row).name != [] && RecipientOf(row).language != []
  {
  }

  /** `fetch_users`: one recipient per row, in order; nothing when the query fails. */
  method FetchUsers(rows: seq<UserRow>, fault: bool) returns (users: seq<Recipient>)
    ensures fault ==> users == []
    ensures !fault ==> |users| == |rows| && forall k :: 0 <= k < |rows| ==> users[k] == RecipientOf(rows[k])
  {
    users := [];
    if fault {
      return;
    }
    var i := 0;
    while i < |rows|
      invariant 0 <= i <= |rows|
      invariant |users| == i && forall k :: 0 <= k < i ==> users[k] == RecipientOf(rows[k])
    {
      users := users + [RecipientOf(rows[i])];
      i := i + 1;
    }
  }

  /** The broadcast text for a recipient: the language's own text for `en`, `ru` and
      `uz`, the English one for anything else, always with the escaped name. */
  datatype Message = Message(lang: Lang, escapedName: string)

  function GenerateMessage(name: string, code: string): (m: Message)
    ensures m.escapedName == EscapeMarkdownV2(name)
    ensures code == "ru" ==> m.lang == Ru
    ensures code == "uz" ==> m.lang == Uz
    ensures code != "ru" && code != "uz" ==> m.lang == En
  {
    Message(LangOf(code), EscapeMarkdownV2(name))
  }

  /** The name inside the message reads back as the recipient's name. */
  lemma MessageCarriesName(name: string, code: string)
    ensures Unescape(GenerateMessage(name, code).escapedName) == name
  {
    UnescapeEscape(name);
  }

  // ---------------------------------------------------------------------------
  // Batches

  const BatchSize: nat := 100

  function Min(a: int, b: int): int
  {
    if a < b then a else b
  }

  /** `ceil(n / 100)`. */
  function NumBatches(n: nat): (b: nat)
    ensures b * BatchSize >= n && (b == 0 || (b - 1) * BatchSize < n)
  {
    (n + BatchSize - 1) / BatchSize
  }

  /** The size of batch `k`: the slice `users[100k : 100k + 100]`. */
  function BatchLen(n: nat, k: nat): (len: nat)
    ensures len <= BatchSize
  {
    if k * BatchSize >= n then 0 else Min(BatchSize, n - k * BatchSize)
  }

  /** The consecutive slices of at most 100 users. */
  function Batches(users: seq<Recipient>): (bs: seq<seq<Recipient>>)
    ensures forall k :: 0 <= k < |bs| ==> 0 < |bs[k]| <= BatchSize
    decreases |users|
  {
    if users == [] then []
    else
      var m := Min(BatchSize, |users|);
      [users[..m]] + Batches(users[m..])
  }

  function Concat(bs: seq<seq<Recipient>>): seq<Recipient>
  {
    if bs == [] then [] else bs[0] + Concat(bs[1..])
  }

  /** Every user lands in exactly one batch, in order, and there are `ceil(n/100)`
      batches. */
  lemma {:induction false} BatchesPartition(users: seq<Recipient>)
    ensures Concat(Batches(users)) == users
    ensures |Batches(users)| == NumBatches(|users|)
    decreases |users|
  {
    if users != [] {
      var m := Min(BatchSize, |users|);
      BatchesPartition(users[m..]);
      assert users[..m] + users[m..] == users;
      assert Batches(users)[1..] == Batches(users[m..]);
    }
  }

  /** Sent messages that succeeded in a batch's results. */
  function Delivered(results: seq<bool>): (n: nat)
    ensures n <= |results|
  {
    if results == [] then 0 else Delivered(results[..|results| - 1]) + (if results[|results| - 1] then 1 else 0)
  }

  /** Successes over the batches sent so far; a batch that raised (None) has none. */
  function Successes(outcomes: seq<Option<seq<bool>>>): nat
  {
    if outcomes == [] then 0
    else Successes(outcomes[..|outcomes| - 1])
         + match outcomes[|outcomes| - 1] case None => 0 case Some(r) => Delivered(r)
  }

  /** Successes never exceed the users the batches held. */
  lemma {:induction false} SuccessesBounded(outcomes: seq<Option<seq<bool>>>, n: nat)
    requires |outcomes| <= NumBatches(n)
    requires forall k :: 0 <= k < |outcomes| && outcomes[k].Some? ==> |outcomes[k].value| == BatchLen(n, k)
    ensures Successes(outcomes) <= Min(|outcomes| * BatchSize, n)
    decreases |outcomes|
  {
    if outcomes != [] {
      var k := |outcomes| - 1;
      SuccessesBounded(outcomes[..k], n);
    }
  }

  /** `send_to_all_users`: every user adds one to `successful` or one to `failed`; a
      batch whose sending raised adds its whole size to `failed`. `outcomes[k]` is
      what sending batch `k` gave: None when it raised, else one delivery result per
      user of the batch. */
  method SendToAll(users: seq<Recipient>, outcomes: seq<Option<seq<bool>>>) returns (successful: nat, failed: nat)
    requires |outcomes| == NumBatches(|users|)
    requires forall k :: 0 <= k < |outcomes| && outcomes[k].Some? ==> |outcomes[k].value| == BatchLen(|users|, k)
    ensures successful + failed == |users|
    ensures successful == Successes(outcomes)
  {
    successful, failed := 0, 0;
    var i := 0;
    while i < |users|
      invariant 0 <= i && i % BatchSize == 0
      invariant i / BatchSize <= |outcomes|
      invariant successful + failed == Min(i, |users|)
      invariant successful == Successes(outcomes[..i / BatchSize])
      decreases |users| - i
    {
      var k := i / BatchSize;
      var batch := users[i..Min(i + BatchSize, |users|)];
      assert outcomes[..k + 1][..k] == outcomes[..k];
      match outcomes[k] {
        case None =>
          failed := failed + |batch|;
        case Some(results) =>
          var j := 0;
          ghost var s0 := successful;
          while j < |results|
            invariant 0 <= j <= |results|
            invariant successful + failed == Min(i, |users|) + j
            invariant successful == s0 + Delivered(results[..j])
          {
            assert results[..j + 1][..j] == results[..j];
            if results[j] {
              successful := successful + 1;
            } else {
              failed := failed + 1;
            }
            j := j + 1;
          }
          assert results[..j] == results;
      }
      i := i + BatchSize;
      assert i / BatchSize == k + 1;
    }
    assert outcomes[..i / BatchSize] == outcomes;
  }

  // ---------------------------------------------------------------------------
  // Language distribution

  /** How many recipients have exactly this language. */
  function CountLang(users: seq<Recipient>, code: string): (n: nat)
    ensures n <= |users|
  {
    if users == [] then 0 else CountLang(users[..|users| - 1], code) + (if users[|users| - 1].language == code then 1 else 0)
  }

  /** The counts `main` shows before sending: `en`, `ru`, `uz`, and every other
      language under "other". */
  method LanguageTally(users: seq<Recipient>) returns (en: nat, ru: nat, uz: nat, other: nat)
    ensures en == CountLang(users, "en") && ru == CountLang(users, "ru") && uz == CountLang(users, "uz")
    ensures en + ru + uz + other == |users|
  {
    en, ru, uz, other := 0, 0, 0, 0;
    var i := 0;
    while i < |users|
      invariant 0 <= i <= |users|
      invariant en == CountLang(users[..i], "en") && ru == CountLang(users[..i], "ru") && uz == CountLang(users[..i], "uz")
      invariant en + ru + uz + other == i
    {
      assert users[..i + 1][..i] == users[..i];
      var code := users[i].language;
      if code == "en" {
        en := en + 1;
      } else if code == "ru" {
        ru := ru + 1;
      } else if code == "uz" {
        uz := uz + 1;
      } else {
        other := other + 1;
      }
      i := i + 1;
    }
    assert users[..i] == users;
  }
}
