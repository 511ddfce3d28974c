/** The few Python string and sequence primitives the core relies on:
    `str.split(sep)`, `int(text)`, `str(n)` (as used in f-strings) and the
    slice `s[:k]`. Only the ASCII range of characters is modelled. */
module PyText {
  import opened Wrappers

  /** An ASCII character that `\s` in a `re` pattern matches (and that
      `str.isspace()` accepts): tab, line feed, vertical tab, form feed,
      carriage return, the four separators 0x1C..0x1F, space. */
  predicate IsSpace(c: char)
  {
    c == ' ' || (9 <= c as int <= 13) || (28 <= c as int <= 31)
  }

  /** An ASCII character that `int()` strips around its digits: space and
      tab through carriage return. The separators 0x1C..0x1F are not
      stripped, so `int()` rejects them. */
  predicate IsIntSpace(c: char)
  {
    c == ' ' || (9 <= c as int <= 13)
  }

  predicate IsDigit(c: char)
  {
    '0' <= c <= '9'
  }

  function DigitValue(c: char): nat
    requires IsDigit(c)
  {
    c as int - '0' as int
  }

  function DigitChar(d: nat): char
    requires d < 10
  {
    ('0' as int + d) as char
  }

  predicate AllDigits(s: string)
  {
    forall i :: 0 <= i < |s| ==> IsDigit(s[i])
  }

  /** The number denoted by a string of decimal digits. */
  function DigitsValue(s: string): nat
    requires AllDigits(s)
  {
    if s == [] then 0 else 10 * DigitsValue(s[..|s| - 1]) + DigitValue(s[|s| - 1])
  }

  // ---------------------------------------------------------------------------
  // str.split(sep)

  /** Python's `s.split(sep)` for a one-character separator: the pieces
      between separators, empty pieces included. */
  function Split(s: string, sep: char): (parts: seq<string>)
    ensures |parts| >= 1
    decreases |s|
  {
    if s == [] then [""]
    else
      var rest := Split(s[1..], sep);
      if s[0] == sep then [""] + rest
      else [[s[0]] + rest[0]] + rest[1..]
  }

  /** Python's `sep.join(parts)`. */
  function Join(parts: seq<string>, sep: char): string
    requires |parts| >= 1
  {
    if |parts| == 1 then parts[0] else parts[0] + [sep] + Join(parts[1..], sep)
  }

  /** `split` is undone by `join`, and no piece contains the separator. */
  lemma {:induction false} SplitJoin(s: string, sep: char)
    ensures Join(Split(s, sep), sep) == s
    ensures forall i :: 0 <= i < |Split(s, sep)| ==> sep !in Split(s, sep)[i]
    decreases |s|
  {
    if s != [] {
      SplitJoin(s[1..], sep);
      var rest := Split(s[1..], sep);
      if s[0] == sep {
        assert Split(s, sep) == [""] + rest;
        assert ([""] + rest)[1..] == rest;
        assert s == [sep] + s[1..];
      } else {
        var parts := Split(s, sep);
        assert parts == [[s[0]] + rest[0]] + rest[1..];
        assert parts[1..] == rest[1..];
        if |rest| == 1 {
          assert Join(rest, sep) == rest[0];
        } else {
          assert Join(rest, sep) == rest[0] + [sep] + Join(rest[1..], sep);
        }
        assert s == [s[0]] + s[1..];
        forall i | 0 <= i < |parts| ensures sep !in parts[i] {
          if i > 0 {
            assert parts[i] == rest[i];
          } else {
            assert sep !in rest[0];
          }
        }
      }
    }
  }

  /** A string without the separator is one piece. */
  lemma {:induction false} SplitWithoutSep(a: string, sep: char)
    requires sep !in a
    ensures Split(a, sep) == [a]
    decreases |a|
  {
    if a != [] {
      assert sep !in a[1..];
      SplitWithoutSep(a[1..], sep);
      assert [a[0]] + a[1..] == a;
    }
  }

  /** The first separator ends the first piece; the rest is split on its own. */
  lemma {:induction false} SplitAtFirstSep(a: string, b: string, sep: char)
    requires sep !in a
    ensures Split(a + [sep] + b, sep) == [a] + Split(b, sep)
    decreases |a|
  {
    var s := a + [sep] + b;
    if a == [] {
      assert s[1..] == b;
    } else {
      assert s[1..] == a[1..] + [sep] + b;
      assert sep !in a[1..];
      SplitAtFirstSep(a[1..], b, sep);
      assert [a[0]] + a[1..] == a;
    }
  }

  // ---------------------------------------------------------------------------
  // int(text) and str(n)

  function LStrip(s: string): (r: string)
    decreases |s|
  {
    if s != [] && IsIntSpace(s[0]) then LStrip(s[1..]) else s
  }

  function RStrip(s: string): (r: string)
    decreases |s|
  {
    if s != [] && IsIntSpace(s[|s| - 1]) then RStrip(s[..|s| - 1]) else s
  }

  /** Python's `int(text)` for base 10: surrounding whitespace is ignored, an
      optional sign is followed by one or more digits. `None` is the
      `ValueError` Python raises otherwise. Underscores between digit groups
      (`int('1_0') == 10`) are not accepted here. */
  function PyInt(text: string): Option<int>
  {
    var t := RStrip(LStrip(text));
    var negative := t != [] && t[0] == '-';
    var body := if t != [] && (t[0] == '-' || t[0] == '+') then t[1..] else t;
    if body == [] || !AllDigits(body) then None
    else if negative then Some(0 - DigitsValue(body))
    else Some(DigitsValue(body))
  }

  /** Decimal digits of a natural number, without leading zeros. */
  function NatToString(n: nat): (s: string)
    ensures s != [] && AllDigits(s)
  {
    if n < 10 then [DigitChar(n)] else NatToString(n / 10) + [DigitChar(n % 10)]
  }

  /** Python's `str(n)` for an integer. */
  function IntToString(n: int): string
  {
    if n < 0 then "-" + NatToString(-n) else NatToString(n)
  }

  lemma {:induction false} NatToStringValue(n: nat)
    ensures DigitsValue(NatToString(n)) == n
  {
    var s := NatToString(n);
    if n >= 10 {
      NatToStringValue(n / 10);
      assert s[..|s| - 1] == NatToString(n / 10);
    }
  }

  lemma NoSpaceStrips(s: string)
    requires forall i :: 0 <= i < |s| ==> !IsIntSpace(s[i])
    ensures RStrip(LStrip(s)) == s
  {
  }

  /** `int(str(n)) == n` for every integer. */
  lemma IntToStringRoundTrip(n: int)
    ensures PyInt(IntToString(n)) == Some(n)
  {
    var s := IntToString(n);
    var digits := NatToString(if n < 0 then -n else n);
    NatToStringValue(if n < 0 then -n else n);
    assert forall i :: 0 <= i < |digits| ==> IsDigit(digits[i]);
    NoSpaceStrips(s);
    if n < 0 {
      assert s[1..] == digits;
    } else {
      assert s == digits;
      assert !(s[0] == '-' || s[0] == '+');
    }
  }

  /** A separator character is whitespace to `str.isspace()` but not to
      `int()`: `int('\x1c1')` raises, while `int(' 1 ')` is 1. */
  lemma SeparatorIsNotIntSpace()
    ensures IsSpace(28 as char) && !IsIntSpace(28 as char)
    ensures PyInt([28 as char] + "1") == None
    ensures PyInt(" 1 ") == Some(1)
  {
    var t := [28 as char] + "1";
    assert LStrip(t) == t;
    assert RStrip(t) == t;
    assert !IsDigit(t[0]);
    assert LStrip(" 1 ") == LStrip("1 ");
    assert LStrip("1 ") == "1 ";
    assert RStrip("1 ") == RStrip("1");
    assert RStrip("1") == "1";
    assert DigitsValue("1") == 1 by {
      assert "1"[..0] == [];
    }
  }

  /** `str(n)` contains only digits and possibly a leading minus sign. */
  lemma IntToStringHasNo(n: int, c: char)
    requires !IsDigit(c) && c != '-'
    ensures c !in IntToString(n)
  {
    var digits := NatToString(if n < 0 then -n else n);
    assert forall i :: 0 <= i < |digits| ==> IsDigit(digits[i]);
  }

  // ---------------------------------------------------------------------------
  // Season keys

  datatype KeyError =
    | NoUnderscore(key: string)   // `key.split('_')[1]` raises IndexError
    | NotAnInteger(key: string)   // `int(...)` raises ValueError

  /** `int(key.split('_')[1])`, the expression every component uses to read
      the season number out of a key such as `season_3`. */
  function SeasonNumberOf(key: string): (r: Result<int, KeyError>)
    ensures r.Err? ==> r.error.key == key
  {
    var parts := Split(key, '_');
    if |parts| < 2 then Err(NoUnderscore(key))
    else match PyInt(parts[1])
      case None => Err(NotAnInteger(key))
      case Some(n) => Ok(n)
  }

  /** The key `season_{n}` that names a season's partition. */
  function SeasonKey(n: int): string
  {
    "season_" + IntToString(n)
  }

  /** Reading the season number back from the key it was written into gives
      the number itself. */
  lemma SeasonKeyRoundTrip(n: int)
    ensures SeasonNumberOf(SeasonKey(n)) == Ok(n)
  {
    IntToStringHasNo(n, '_');
    assert '_' !in "season";
    assert SeasonKey(n) == "season" + ['_'] + IntToString(n);
    SplitAtFirstSep("season", IntToString(n), '_');
    SplitWithoutSep(IntToString(n), '_');
    IntToStringRoundTrip(n);
  }

  /** A season key whose number is preceded by a separator character does
      not parse, as `int()` raises on it. */
  lemma SeparatorSeasonKeyRejected()
    ensures var key := "season_" + ([28 as char] + "1");
      SeasonNumberOf(key) == Err(NotAnInteger(key))
  {
    var t := [28 as char] + "1";
    assert '_' !in "season";
    assert '_' !in t;
    assert "season_" + t == "season" + ['_'] + t;
    SplitAtFirstSep("season", t, '_');
    SplitWithoutSep(t, '_');
    SeparatorIsNotIntSpace();
  }

  // ---------------------------------------------------------------------------
  // s[:k]

  /** Python's `s[:k]`, including negative `k`, which drops `-k` elements
      from the end. */
  function PyPrefix<T>(s: seq<T>, k: int): (r: seq<T>)
    ensures |r| <= |s| && r == s[..|r|]
    ensures k >= 0 ==> |r| == if k < |s| then k else |s|
    ensures k < 0 ==> |r| == if |s| + k > 0 then |s| + k else 0
  {
    if k >= 0 then (if k < |s| then s[..k] else s)
    else (if |s| + k > 0 then s[..|s| + k] else [])
  }
}
