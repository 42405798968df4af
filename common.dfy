/** Values and string helpers shared by every part of the bot's model:
    an Option type, the three interface languages with their English fallback,
    decimal rendering and parsing of integers, and the small string operations
    the Python code relies on (`split`, `startswith`, `strip`, `replace`). */
module Common {

  datatype Option<T> = None | Some(value: T)

  /** The three languages that have their own tables. */
  datatype Lang = Uz | Ru | En

  /** Every table in the bot is a `dict.get(lang, table['en'])` lookup:
      a code other than "uz" or "ru" reads the English entry. */
  function LangOf(code: string): (l: Lang)
    ensures l == Uz <==> code == "uz"
    ensures l == Ru <==> code == "ru"
    ensures l == En <==> (code != "uz" && code != "ru")
  {
    if code == "uz" then Uz else if code == "ru" then Ru else En
  }

  function LangCode(l: Lang): string
  {
    match l
    case Uz => "uz"
    case Ru => "ru"
    case En => "en"
  }

  lemma LangCodeRoundTrip(l: Lang)
    ensures LangOf(LangCode(l)) == l
  {
  }

  // ---------------------------------------------------------------------------
  // Decimal integers: Python's str(int) and int(str)

  predicate IsDigit(c: char)
  {
    '0' <= c <= '9'
  }

  function DigitChar(d: nat): (c: char)
    requires d < 10
    ensures IsDigit(c)
  {
    (('0' as int) + d) as char
  }

  function DigitValue(c: char): (d: nat)
    requires IsDigit(c)
    ensures d < 10
  {
    (c as int) - ('0' as int)
  }

  lemma DigitRoundTrip(d: nat)
    requires d < 10
    ensures DigitValue(DigitChar(d)) == d
  {
  }

  predicate AllDigits(s: string)
  {
    forall i :: 0 <= i < |s| ==> IsDigit(s[i])
  }

  /** `str(n)` for a non-negative integer: no sign, no leading zeros. */
  function NatToString(n: nat): (s: string)
    ensures |s| >= 1 && AllDigits(s)
    ensures n >= 10 ==> s[0] != '0'
    decreases n
  {
    if n < 10 then [DigitChar(n)] else NatToString(n / 10) + [DigitChar(n % 10)]
  }

  /** `str(i)` for any integer. */
  function IntToString(i: int): (s: string)
    ensures |s| >= 1
    ensures '_' !in s && ',' !in s
  {
    if i < 0 then "-" + NatToString(-i) else NatToString(i)
  }

  /** The value of a non-empty run of decimal digits (leading zeros allowed, as in `int("007")`). */
  function DigitsValue(s: string): nat
    requires AllDigits(s)
    decreases |s|
  {
    if s == [] then 0 else DigitsValue(s[..|s| - 1]) * 10 + DigitValue(s[|s| - 1])
  }

  /** `int(s)` restricted to the payloads the bot itself builds: an optional sign
      followed by at least one ASCII digit. Anything else is the ValueError path. */
  function ParseInt(s: string): (r: Option<int>)
    ensures r.Some? ==> |s| >= 1
  {
    if |s| >= 2 && (s[0] == '-' || s[0] == '+') && AllDigits(s[1..]) then
      var v: int := DigitsValue(s[1..]);
      Some(if s[0] == '-' then -v else v)
    else if |s| >= 1 && AllDigits(s) then
      Some(DigitsValue(s))
    else
      None
  }

  lemma {:induction false} DigitsValueOfNatToString(n: nat)
    ensures DigitsValue(NatToString(n)) == n
    decreases n
  {
    if n >= 10 {
      var s := NatToString(n);
      DigitsValueOfNatToString(n / 10);
      assert s[..|s| - 1] == NatToString(n / 10);
      DigitRoundTrip(n % 10);
    }
  }

  /** `int(str(i)) == i`: every id the bot writes into a payload reads back unchanged. */
  lemma ParseIntToString(i: int)
    ensures ParseInt(IntToString(i)) == Some(i)
  {
    var s := IntToString(i);
    if i < 0 {
      var t := NatToString(-i);
      assert s == "-" + t;
      assert s[0] == '-' && s[1..] == t;
      DigitsValueOfNatToString(-i);
      assert ParseInt(s) == Some(-(DigitsValue(t) as int));
    } else {
      var t := NatToString(i);
      assert s == t;
      assert IsDigit(s[0]);
      DigitsValueOfNatToString(i);
      assert ParseInt(s) == Some(DigitsValue(t) as int);
    }
  }

  /** Python's `int(text)`: the digits may be surrounded by whitespace. */
  function PyInt(text: string): (r: Option<int>)
  {
    ParseInt(Strip(text))
  }

  /** `int(str(i)) == i`, the form every payload parser relies on. */
  lemma PyIntToString(i: int)
    ensures PyInt(IntToString(i)) == Some(i)
  {
    var s := IntToString(i);
    var n: nat := if i < 0 then -i else i;
    var t := NatToString(n);
    assert IsDigit(t[0]) && IsDigit(t[|t| - 1]);
    if i < 0 {
      assert s == "-" + t;
      assert s[|s| - 1] == t[|t| - 1];
    } else {
      assert s == t;
    }
    StripUnchanged(s);
    ParseIntToString(i);
  }

  /** Text that neither starts nor ends with whitespace is left alone by `strip()`. */
  lemma StripUnchanged(s: string)
    requires s != [] && !IsSpace(s[0]) && !IsSpace(s[|s| - 1])
    ensures Strip(s) == s
  {
    assert StripLeft(s) == s;
  }

  // ---------------------------------------------------------------------------
  // str.split(sep) for a one-character separator

  /** Python's `s.split(sep)`: the pieces between separators, always at least one. */
  function Split(s: string, sep: char): (parts: seq<string>)
    ensures |parts| >= 1
    decreases |s|
  {
    if s == [] then [""]
    else
      var rest := Split(s[1..], sep);
      if s[0] == sep then [""] + rest else [[s[0]] + rest[0]] + rest[1..]
  }

  lemma {:induction false} SplitNoSeparator(s: string, sep: char)
    requires sep !in s
    ensures Split(s, sep) == [s]
    decreases |s|
  {
    if s != [] {
      SplitNoSeparator(s[1..], sep);
      assert [s[0]] + s[1..] == s;
    }
  }

  /** Splitting at one separator splits the string into the pieces of each side. */
  lemma {:induction false} SplitAppend(a: string, sep: char, b: string)
    ensures Split(a + [sep] + b, sep) == Split(a, sep)[..|Split(a, sep)| - 1]
                                         + [Split(a, sep)[|Split(a, sep)| - 1]]
                                         + Split(b, sep)
    decreases |a|
  {
    var s := a + [sep] + b;
    if a == [] {
      assert s[0] == sep && s[1..] == b;
    } else {
      assert s[1..] == a[1..] + [sep] + b;
      SplitAppend(a[1..], sep, b);
    }
  }

  /** The common case: a separator-free head joined to the rest by one separator. */
  lemma SplitCons(a: string, sep: char, b: string)
    requires sep !in a
    ensures Split(a + [sep] + b, sep) == [a] + Split(b, sep)
  {
    SplitAppend(a, sep, b);
    SplitNoSeparator(a, sep);
  }

  /** `s.split(sep)[-1]` of a string that ends in a separator-free piece is that piece. */
  lemma SplitLast(a: string, sep: char, b: string)
    requires sep !in b
    ensures var parts := Split(a + [sep] + b, sep); parts[|parts| - 1] == b
  {
    SplitAppend(a, sep, b);
    SplitNoSeparator(b, sep);
  }

  // ---------------------------------------------------------------------------
  // Prefixes and replacement

  predicate StartsWith(s: string, p: string)
  {
    |p| <= |s| && s[..|p|] == p
  }

  /** `s.replace(old, "")` for a non-empty pattern: left to right, non-overlapping. */
  function RemoveAll(s: string, pat: string): (r: string)
    requires |pat| > 0
    ensures |r| <= |s|
    decreases |s|
  {
    if |s| == 0 then ""
    else if StartsWith(s, pat) then RemoveAll(s[|pat|..], pat)
    else [s[0]] + RemoveAll(s[1..], pat)
  }

  /** `s.replace(c, r)` for a one-character pattern. */
  function ReplaceChar(s: string, c: char, r: string): (t: string)
    ensures c !in s ==> t == s
    decreases |s|
  {
    if s == [] then ""
    else (if s[0] == c then r else [s[0]]) + ReplaceChar(s[1..], c, r)
  }

  lemma {:induction false} ReplaceCharAppend(a: string, b: string, c: char, r: string)
    ensures ReplaceChar(a + b, c, r) == ReplaceChar(a, c, r) + ReplaceChar(b, c, r)
    decreases |a|
  {
    if a == [] {
      assert a + b == b;
    } else {
      assert (a + b)[0] == a[0] && (a + b)[1..] == a[1..] + b;
      ReplaceCharAppend(a[1..], b, c, r);
    }
  }

  // ---------------------------------------------------------------------------
  // str.strip()

  /** Python's `str.isspace()` for one character: what `str.strip()` and `int()`
      remove from the ends of a text. Besides the ASCII blanks this takes in the
      file, group, record and unit separators, NEL, the no-break spaces and the
      other Unicode space separators, and the line and paragraph separators. */
  predicate IsSpace(c: char)
  {
    c == ' ' || '\t' <= c <= '\r' || '\U{001C}' <= c <= '\U{001F}' || c == '\U{0085}' || c == '\U{00A0}'
    || c == '\U{1680}' || '\U{2000}' <= c <= '\U{200A}' || c == '\U{2028}' || c == '\U{2029}'
    || c == '\U{202F}' || c == '\U{205F}' || c == '\U{3000}'
  }

  function StripLeft(s: string): string
    decreases |s|
  {
    if s != [] && IsSpace(s[0]) then StripLeft(s[1..]) else s
  }

  function StripRight(s: string): string
    decreases |s|
  {
    if s != [] && IsSpace(s[|s| - 1]) then StripRight(s[..|s| - 1]) else s
  }

  /** Python's `str.strip()`. */
  function Strip(s: string): string
  {
    StripRight(StripLeft(s))
  }

  lemma {:induction false} StripLeftSuffix(s: string)
    ensures |StripLeft(s)| <= |s| && StripLeft(s) == s[|s| - |StripLeft(s)|..]
    ensures StripLeft(s) != [] ==> !IsSpace(StripLeft(s)[0])
    decreases |s|
  {
    if s != [] && IsSpace(s[0]) {
      StripLeftSuffix(s[1..]);
    }
  }

  lemma {:induction false} StripRightPrefix(s: string)
    ensures |StripRight(s)| <= |s| && StripRight(s) == s[..|StripRight(s)|]
    ensures StripRight(s) != [] ==> !IsSpace(StripRight(s)[|StripRight(s)| - 1])
    decreases |s|
  {
    if s != [] && IsSpace(s[|s| - 1]) {
      StripRightPrefix(s[..|s| - 1]);
    }
  }

  /** `strip()` removes whitespace from both ends and nothing else: the result is a
      slice of the input that neither starts nor ends with whitespace. */
  lemma StripTrims(s: string)
    ensures exists i, j :: 0 <= i <= j <= |s| && Strip(s) == s[i..j]
    ensures Strip(s) != [] ==> !IsSpace(Strip(s)[0]) && !IsSpace(Strip(s)[|Strip(s)| - 1])
  {
    var l := StripLeft(s);
    StripLeftSuffix(s);
    StripRightPrefix(l);
    var r := StripRight(l);
    var i := |s| - |l|;
    assert r == s[i..i + |r|];
    if r != [] {
      assert r[0] == l[0];
    }
  }

  /** Python truthiness of a nullable text value. */
  predicate Truthy(v: Option<string>)
  {
    v.Some? && v.value != ""
  }

  /** True when `str.strip()` would remove every character of `s`. */
  predicate Blank(s: string)
  {
    forall i :: 0 <= i < |s| ==> IsSpace(s[i])
  }

  lemma {:induction false} StripLeftBlank(s: string)
    ensures StripLeft(s) == [] <==> Blank(s)
    decreases |s|
  {
    if s != [] && IsSpace(s[0]) {
      StripLeftBlank(s[1..]);
      assert Blank(s[1..]) ==> Blank(s) by {
        if Blank(s[1..]) {
          forall i | 0 < i < |s| ensures IsSpace(s[i]) {
            assert s[i] == s[1..][i - 1];
          }
        }
      }
    }
  }

  lemma {:induction false} StripRightBlank(s: string)
    ensures StripRight(s) == [] <==> Blank(s)
    decreases |s|
  {
    if s != [] && IsSpace(s[|s| - 1]) {
      var init := s[..|s| - 1];
      StripRightBlank(init);
      assert Blank(init) ==> Blank(s) by {
        if Blank(init) {
          forall i | 0 <= i < |s| - 1 ensures IsSpace(s[i]) {
            assert s[i] == init[i];
          }
        }
      }
    }
  }

  /** `s.strip()` is empty exactly when `s` is all whitespace. */
  lemma StripBlank(s: string)
    ensures Strip(s) == [] <==> Blank(s)
  {
    StripLeftBlank(s);
    StripLeftSuffix(s);
    StripRightBlank(StripLeft(s));
  }

  lemma BlankJoin(a: string, b: string)
    ensures Blank(a + " " + b) <==> Blank(a) && Blank(b)
  {
    var s := a + " " + b;
    assert forall i :: 0 <= i < |a| ==> s[i] == a[i];
    assert forall i :: 0 <= i < |b| ==> s[|a| + 1 + i] == b[i];
  }

  // ---------------------------------------------------------------------------
  // Profile rows and the name shown for them

  /** The `friends_users` columns that the name pickers read. Names are stored as
      text (the bot's save path writes "" for a missing one); the username may be NULL. */
  datatype Profile = Profile(firstName: string, lastName: string, username: Option<string>)

  /** `f"{first} {last}".strip() or username`. */
  function DisplayName(p: Profile): Option<string>
  {
    var full := Strip(p.firstName + " " + p.lastName);
    if full != "" then Some(full) else p.username
  }

  /** The shown name is the stripped full name unless both name parts are blank, in
      which case it is the username (which may itself be NULL). */
  lemma DisplayNameChoice(p: Profile)
    ensures !(Blank(p.firstName) && Blank(p.lastName)) ==>
              DisplayName(p).Some? && DisplayName(p).value != ""
              && DisplayName(p).value == Strip(p.firstName + " " + p.lastName)
    ensures Blank(p.firstName) && Blank(p.lastName) ==> DisplayName(p) == p.username
  {
    StripBlank(p.firstName + " " + p.lastName);
    BlankJoin(p.firstName, p.lastName);
  }

  /** A first name that is only a no-break space counts as blank, and a trailing
      one is trimmed: Unicode whitespace is stripped like ASCII whitespace. */
  lemma UnicodeSpacesStripped()
    ensures DisplayName(Profile("\U{00A0}", "", Some("bob"))) == Some("bob")
    ensures DisplayName(Profile("Ali\U{00A0}", "", None)) == Some("Ali")
  {
    DisplayNameChoice(Profile("\U{00A0}", "", Some("bob")));
    var full := "Ali\U{00A0}" + " " + "";
    assert StripLeft(full) == full;
    assert full[..|full| - 1] == "Ali\U{00A0}";
    assert "Ali\U{00A0}"[..3] == "Ali";
    assert StripRight(full) == StripRight("Ali");
    assert StripRight("Ali") == "Ali";
  }

  // ---------------------------------------------------------------------------
  // Translation tables

  /** `TABLES.get(lang, TABLES['en']).get(key, key)`: the language's table, or the
      English one for a language without a table; the key itself when the chosen
      table has no entry for it. */
  function Translate(tables: map<string, map<string, string>>, lang: string, key: string): (text: string)
    requires "en" in tables
    ensures lang in tables && key in tables[lang] ==> text == tables[lang][key]
    ensures lang in tables && key !in tables[lang] ==> text == key
    ensures lang !in tables && key in tables["en"] ==> text == tables["en"][key]
    ensures lang !in tables && key !in tables["en"] ==> text == key
  {
    var table := if lang in tables then tables[lang] else tables["en"];
    if key in table then table[key] else key
  }

  /** A language without a table reads exactly as English, and a key no table
      knows reads as itself in every language. */
  lemma TranslateFallsBackToEnglish(tables: map<string, map<string, string>>, lang: string, key: string)
    requires "en" in tables
    ensures lang !in tables ==> Translate(tables, lang, key) == Translate(tables, "en", key)
    ensures (forall l :: l in tables ==> key !in tables[l]) ==> Translate(tables, lang, key) == key
  {
  }

  /** A counting query's `result.count or 0`, and 0 when the store fails. */
  function CountOrZero(count: Option<nat>, fault: bool): (n: nat)
    ensures fault ==> n == 0
    ensures !fault && count.Some? ==> n == count.value
    ensures count.None? ==> n == 0
  {
    if fault then 0 else match count case Some(c) => c case None => 0
  }
}
