/** The corpus validation rules: the field validators of one episode
    summary, the numbering rules of a whole dataset, and the two entry points
    that wrap their failures in a `ValueError` with a fixed prefix. */
module Validation {
  import opened Wrappers
  import opened JsonValues
  import opened PyText

  /** Length of an all-MiniLM-L6-v2 embedding. */
  const EmbeddingDimension: nat := 384

  /** Shortest summary paragraph accepted. */
  const MinParagraphLength: nat := 10

  const DataFailurePrefix: string := "Data validation failed: "
  const EpisodeFailurePrefix: string := "Episode validation failed: "
  const SeasonSequenceMessage: string := "Invalid season number sequence"
  const EpisodeSequenceMessage: string := "Invalid episode number sequence"

  /** Why a single field of an episode summary was rejected. */
  datatype FieldError =
    | Missing(field: string)
    | NotAString(field: string)
    | NotAStringList(field: string)
    | NotAFloatList(field: string)
    | PatternMismatch(field: string)
    | InvalidDateFormat
    | EmptySummary
    | ShortParagraphs
    | EmptyEmbedding
    | WrongDimension(got: nat)

  /** The errors pydantic reports for every episode that fails, keyed by the
      season key and the episode key under which it was found. */
  datatype EpisodeErrors = EpisodeErrors(seasonKey: string, episodeKey: string, errors: seq<FieldError>)

  /** What a `ValueError` raised by the entry points carries besides its prefix. */
  datatype Cause =
    | FieldsInvalid(errors: seq<FieldError>)
    | SchemaInvalid(episodes: seq<EpisodeErrors>)
    | SeasonKeyInvalid(keyError: KeyError)
    | EpisodeNumberNotInteger(text: string)
    | InvalidSequence(message: string)

  datatype ValidationFailure = ValueError(prefix: string, cause: Cause)

  // ---------------------------------------------------------------------------
  // episode_number: pattern ^\d{2}$

  predicate EpisodeNumberMatches(s: string)
  {
    |s| == 2 && IsDigit(s[0]) && IsDigit(s[1])
  }

  // ---------------------------------------------------------------------------
  // episode_airdate: datetime.strptime(v, '%B %d, %Y')

  datatype Date = Date(year: int, month: int, day: int)

  const MonthNames: seq<string> := [
    "January", "February", "March", "April", "May", "June", "July",
    "August", "September", "October", "November", "December"]

  function LowerChar(c: char): char
  {
    if 'A' <= c <= 'Z' then (c as int + 32) as char else c
  }

  /** Equal up to ASCII letter case, as strptime's case-insensitive match of `%B`. */
  predicate SameIgnoringCase(a: string, b: string)
  {
    |a| == |b| && forall i :: 0 <= i < |a| ==> LowerChar(a[i]) == LowerChar(b[i])
  }

  /** The month (1..12) whose full English name is `token`, ignoring case. */
  function MonthOf(token: string): (m: Option<int>)
    ensures m.Some? ==> 1 <= m.value <= 12 && SameIgnoringCase(token, MonthNames[m.value - 1])
    ensures m.None? ==> forall k :: 0 <= k < 12 ==> !SameIgnoringCase(token, MonthNames[k])
  {
    MonthFrom(token, 0)
  }

  function MonthFrom(token: string, k: nat): (m: Option<int>)
    requires k <= 12
    ensures m.Some? ==> k < m.value <= 12 && SameIgnoringCase(token, MonthNames[m.value - 1])
    ensures m.None? ==> forall j :: k <= j < 12 ==> !SameIgnoringCase(token, MonthNames[j])
    decreases 12 - k
  {
    if k == 12 then None
    else if SameIgnoringCase(token, MonthNames[k]) then Some(k + 1)
    else MonthFrom(token, k + 1)
  }

  predicate IsLeapYear(y: int)
  {
    y % 4 == 0 && (y % 100 != 0 || y % 400 == 0)
  }

  function DaysInMonth(month: int, year: int): int
    requires 1 <= month <= 12
  {
    if month == 2 then (if IsLeapYear(year) then 29 else 28)
    else if month == 4 || month == 6 || month == 9 || month == 11 then 30
    else 31
  }

  /** A date `datetime` accepts: years 1..9999, a real day of the month. */
  predicate ValidDate(d: Date)
  {
    1 <= d.year <= 9999 && 1 <= d.month <= 12 && 1 <= d.day <= DaysInMonth(d.month, d.year)
  }

  /** Index of the first whitespace character of `s`, or `|s|`. */
  function FirstSpace(s: string): (i: nat)
    ensures i <= |s| && (i < |s| ==> IsSpace(s[i]))
    ensures forall j :: 0 <= j < i ==> !IsSpace(s[j])
    decreases |s|
  {
    if s == [] || IsSpace(s[0]) then 0 else 1 + FirstSpace(s[1..])
  }

  /** Number of whitespace characters at the start of `s`. */
  function LeadingSpaces(s: string): (n: nat)
    ensures n <= |s| && (n < |s| ==> !IsSpace(s[n]))
    ensures forall j :: 0 <= j < n ==> IsSpace(s[j])
    decreases |s|
  {
    if s != [] && IsSpace(s[0]) then 1 + LeadingSpaces(s[1..]) else 0
  }

  /** Length of the day field `%d` at the start of `t` when a comma follows
      it (one or two digits), or 0. */
  function DayLength(t: string): nat
  {
    if |t| >= 3 && IsDigit(t[0]) && IsDigit(t[1]) && t[2] == ',' then 2
    else if |t| >= 2 && IsDigit(t[0]) && t[1] == ',' then 1
    else 0
  }

  /** `datetime.strptime(s, '%B %d, %Y')`: a month name in any case, one or
      more whitespace characters, a day of one or two digits, a comma, one or
      more whitespace characters, four year digits and nothing after them;
      the result must be a calendar date. `None` is the `ValueError`. */
  function ParseAirdate(s: string): (r: Option<Date>)
    ensures r.Some? ==> ValidDate(r.value)
  {
    var i := FirstSpace(s);
    var month := MonthOf(s[..i]);
    if month.None? || i == |s| then None
    else
      var rest := s[i..];
      ParseDayYear(rest[LeadingSpaces(rest)..], month.value)
  }

  /** The part of `ParseAirdate` after the month and its whitespace: `%d, %Y`. */
  function ParseDayYear(t: string, month: int): (r: Option<Date>)
    ensures r.Some? ==> ValidDate(r.value) && r.value.month == month
  {
    var dayLength := DayLength(t);
    if dayLength == 0 then None
    else
      var day := DigitsValue(t[..dayLength]);
      var u := t[dayLength + 1..];
      var spaces := LeadingSpaces(u);
      var yearText := u[spaces..];
      if spaces == 0 || |yearText| != 4 || !AllDigits(yearText) then None
      else
        var date := Date(DigitsValue(yearText), month, day);
        if ValidDate(date) then Some(date) else None
  }

  function TwoDigits(n: nat): (s: string)
    requires n < 100
    ensures AllDigits(s)
  {
    [DigitChar(n / 10), DigitChar(n % 10)]
  }

  function FourDigits(n: nat): (s: string)
    requires n < 10000
    ensures AllDigits(s)
  {
    [DigitChar(n / 1000), DigitChar(n / 100 % 10), DigitChar(n / 10 % 10), DigitChar(n % 10)]
  }

  /** `date.strftime('%B %d, %Y')`, the form the corpus stores airdates in. */
  function FormatAirdate(d: Date): string
    requires ValidDate(d)
  {
    MonthNames[d.month - 1] + (" " + (TwoDigits(d.day) + ", " + FourDigits(d.year)))
  }

  lemma TwoDigitsValue(n: nat)
    requires n < 100
    ensures DigitsValue(TwoDigits(n)) == n
  {
    var s := TwoDigits(n);
    assert s[..1][..0] == [];
    assert DigitsValue(s[..1]) == n / 10;
    assert DigitsValue(s) == 10 * (n / 10) + n % 10;
  }

  lemma FourDigitsValue(n: nat)
    requires n < 10000
    ensures DigitsValue(FourDigits(n)) == n
  {
    var s := FourDigits(n);
    var s3, s2, s1 := s[..3], s[..3][..2], s[..3][..2][..1];
    assert s1[..0] == [];
    assert DigitsValue(s1) == n / 1000;
    assert DigitsValue(s2) == 10 * (n / 1000) + n / 100 % 10 == n / 100;
    assert DigitsValue(s3) == 10 * (n / 100) + n / 10 % 10 == n / 10;
    assert DigitsValue(s) == 10 * (n / 10) + n % 10;
  }

  /** `MonthFrom` finds the first month from `k` on whose name matches. */
  lemma {:induction false} MonthFromFinds(token: string, k: nat, m: nat)
    requires k < m <= 12
    requires forall j :: k <= j < m - 1 ==> !SameIgnoringCase(token, MonthNames[j])
    requires SameIgnoringCase(token, MonthNames[m - 1])
    ensures MonthFrom(token, k) == Some(m)
    decreases m - k
  {
    if k < m - 1 {
      MonthFromFinds(token, k + 1, m);
    }
  }

  /** The names of two months differ, ignoring case, in one of their first
      three letters. */
  lemma NamesDiffer(a: nat, b: nat)
    requires a < b < 12
    ensures !SameIgnoringCase(MonthNames[a], MonthNames[b])
  {
    var x, y := MonthNames[a], MonthNames[b];
    if |x| == |y| {
      assert LowerChar(x[0]) != LowerChar(y[0]) || LowerChar(x[1]) != LowerChar(y[1])
             || LowerChar(x[2]) != LowerChar(y[2]);
    }
  }

  /** Each month name reads back as its own month. */
  lemma MonthOfName(m: int)
    requires 1 <= m <= 12
    ensures MonthOf(MonthNames[m - 1]) == Some(m)
  {
    var name := MonthNames[m - 1];
    assert SameIgnoringCase(name, name);
    forall k | 0 <= k < m - 1
      ensures !SameIgnoringCase(name, MonthNames[k])
    {
      NamesDiffer(k, m - 1);
    }
    MonthFromFinds(name, 0, m);
  }

  lemma {:induction false} FirstSpaceOfLetters(a: string, b: string)
    requires forall j :: 0 <= j < |a| ==> !IsSpace(a[j])
    requires b != [] && IsSpace(b[0])
    ensures FirstSpace(a + b) == |a|
    decreases |a|
  {
    if a == [] {
      assert a + b == b;
    } else {
      assert (a + b)[0] == a[0];
      assert (a + b)[1..] == a[1..] + b;
      FirstSpaceOfLetters(a[1..], b);
    }
  }

  lemma ParseDayYearFormatted(dd: string, yyyy: string, m: int)
    requires |dd| == 2 && AllDigits(dd) && |yyyy| == 4 && AllDigits(yyyy)
    requires ValidDate(Date(DigitsValue(yyyy), m, DigitsValue(dd)))
    ensures ParseDayYear(dd + ", " + yyyy, m) == Some(Date(DigitsValue(yyyy), m, DigitsValue(dd)))
  {
    var t := dd + ", " + yyyy;
    assert DayLength(t) == 2;
    assert t[..2] == dd;
    var u := " " + yyyy;
    assert t[3..] == u;
    assert LeadingSpaces(u) == 1 by {
      assert u[1..][0] == yyyy[0];
    }
    assert u[1..] == yyyy;
  }

  lemma ParseAfterMonth(name: string, rest: string, m: int)
    requires forall j :: 0 <= j < |name| ==> !IsSpace(name[j])
    requires MonthOf(name) == Some(m)
    requires rest != [] && IsSpace(rest[0])
    ensures ParseAirdate(name + rest) == ParseDayYear(rest[LeadingSpaces(rest)..], m)
  {
    var s := name + rest;
    FirstSpaceOfLetters(name, rest);
    assert s[..|name|] == name;
    assert s[|name|..] == rest;
  }

  lemma ParseFormatted(name: string, dd: string, yyyy: string, m: int)
    requires forall j :: 0 <= j < |name| ==> !IsSpace(name[j])
    requires MonthOf(name) == Some(m)
    requires |dd| == 2 && AllDigits(dd) && |yyyy| == 4 && AllDigits(yyyy)
    requires ValidDate(Date(DigitsValue(yyyy), m, DigitsValue(dd)))
    ensures ParseAirdate(name + (" " + (dd + ", " + yyyy))) == Some(Date(DigitsValue(yyyy), m, DigitsValue(dd)))
  {
    var t := dd + ", " + yyyy;
    var tail := " " + t;
    ParseAfterMonth(name, tail, m);
    assert tail[1..] == t;
    assert LeadingSpaces(tail) == 1 by {
      assert t[0] == dd[0];
    }
    ParseDayYearFormatted(dd, yyyy, m);
  }

  /** Formatting a calendar date and parsing it back gives the same date. */
  lemma AirdateRoundTrip(d: Date)
    requires ValidDate(d)
    ensures ParseAirdate(FormatAirdate(d)) == Some(d)
  {
    var name := MonthNames[d.month - 1];
    assert forall j :: 0 <= j < |name| ==> !IsSpace(name[j]);
    MonthOfName(d.month);
    TwoDigitsValue(d.day);
    FourDigitsValue(d.year);
    ParseFormatted(name, TwoDigits(d.day), FourDigits(d.year), d.month);
  }

  /** The day-and-year part of a string that parses: a day of one or two
      digits, a comma, whitespace and four year digits. */
  lemma ParsedDayYearShape(t: string, month: int) returns (dd: string, sp2: string, yyyy: string)
    requires ParseDayYear(t, month).Some?
    ensures var d := ParseDayYear(t, month).value;
      && t == dd + ("," + (sp2 + yyyy))
      && 1 <= |dd| <= 2 && AllDigits(dd) && DigitsValue(dd) == d.day
      && sp2 != [] && (forall j :: 0 <= j < |sp2| ==> IsSpace(sp2[j]))
      && |yyyy| == 4 && AllDigits(yyyy) && DigitsValue(yyyy) == d.year
  {
    var dl := DayLength(t);
    dd := t[..dl];
    var u := t[dl + 1..];
    var m := LeadingSpaces(u);
    sp2 := u[..m];
    yyyy := u[m..];
    assert u == sp2 + yyyy;
    assert t == dd + ("," + u);
  }

  /** One step of `strptime`: a string that parses starts with a month
      name that is followed by whitespace, and the rest after that
      whitespace is parsed as the day and the year of that month. */
  lemma ParseAirdateParts(v: string)
    requires ParseAirdate(v).Some?
    ensures FirstSpace(v) < |v| && MonthOf(v[..FirstSpace(v)]).Some?
    ensures var rest := v[FirstSpace(v)..];
      ParseAirdate(v) == ParseDayYear(rest[LeadingSpaces(rest)..], MonthOf(v[..FirstSpace(v)]).value)
  {
  }

  /** A string is its prefix of length `i`, then the next `n` characters,
      then the rest. */
  lemma SplitThree(v: string, i: nat, n: nat)
    requires i <= |v| && n <= |v| - i
    ensures v == v[..i] + (v[i..][..n] + v[i..][n..])
  {
    assert v[i..] == v[i..][..n] + v[i..][n..];
  }

  /** The month part of a string that parses: a month name in any case,
      whitespace, and a rest that parses as the day and year of month `m`. */
  lemma ParsedMonthShape(v: string) returns (name: string, sp1: string, t: string, m: int)
    requires ParseAirdate(v).Some?
    ensures v == name + (sp1 + t)
    ensures 1 <= m <= 12 && SameIgnoringCase(name, MonthNames[m - 1])
    ensures sp1 != [] && forall j :: 0 <= j < |sp1| ==> IsSpace(sp1[j])
    ensures ParseAirdate(v) == ParseDayYear(t, m)
  {
    ParseAirdateParts(v);
    var i := FirstSpace(v);
    name := v[..i];
    m := MonthOf(name).value;
    var rest := v[i..];
    var n := LeadingSpaces(rest);
    sp1 := rest[..n];
    t := rest[n..];
    SplitThree(v, i, n);
  }

  /** Conversely, every string that parses is a month name (in any case),
      whitespace, a day of one or two digits, a comma, whitespace and four
      year digits, and these spell the date it parses to. */
  lemma ParsedAirdateShape(v: string) returns (name: string, sp1: string, dd: string, sp2: string, yyyy: string)
    requires ParseAirdate(v).Some?
    ensures var d := ParseAirdate(v).value;
      && v == name + (sp1 + (dd + ("," + (sp2 + yyyy))))
      && SameIgnoringCase(name, MonthNames[d.month - 1])
      && sp1 != [] && (forall j :: 0 <= j < |sp1| ==> IsSpace(sp1[j]))
      && 1 <= |dd| <= 2 && AllDigits(dd) && DigitsValue(dd) == d.day
      && sp2 != [] && (forall j :: 0 <= j < |sp2| ==> IsSpace(sp2[j]))
      && |yyyy| == 4 && AllDigits(yyyy) && DigitsValue(yyyy) == d.year
  {
    var t, m;
    name, sp1, t, m := ParsedMonthShape(v);
    dd, sp2, yyyy := ParsedDayYearShape(t, m);
  }

  /** The validator for `episode_airdate`: the value itself when it parses. */
  function ValidateAirdate(v: string): (r: Result<string, FieldError>)
    ensures r.Ok? <==> ParseAirdate(v).Some?
    ensures r.Ok? ==> r.value == v
    ensures r.Err? ==> r.error == InvalidDateFormat
  {
    if ParseAirdate(v).Some? then Ok(v) else Err(InvalidDateFormat)
  }

  // ---------------------------------------------------------------------------
  // episode_summary and summary_embedding

  /** Python's `any(len(p) < n for p in ps)`. */
  function AnyShorterThan(ps: seq<string>, n: nat): (b: bool)
    ensures b <==> exists i :: 0 <= i < |ps| && |ps[i]| < n
  {
    if ps == [] then false
    else if |ps[0]| < n then true
    else
      assert forall i :: 1 <= i < |ps| ==> ps[i] == ps[1..][i - 1];
      AnyShorterThan(ps[1..], n)
  }

  /** The validator for `episode_summary`. */
  function ValidateSummary(v: seq<string>): (r: Result<seq<string>, FieldError>)
    ensures r.Ok? <==> v != [] && forall i :: 0 <= i < |v| ==> |v[i]| >= MinParagraphLength
    ensures r.Ok? ==> r.value == v
    ensures r == Err(EmptySummary) <==> v == []
  {
    if v == [] then Err(EmptySummary)
    else if AnyShorterThan(v, MinParagraphLength) then Err(ShortParagraphs)
    else Ok(v)
  }

  /** The validator for `summary_embedding`. */
  function ValidateEmbedding(v: seq<real>): (r: Result<seq<real>, FieldError>)
    ensures r.Ok? <==> |v| == EmbeddingDimension
    ensures r.Ok? ==> r.value == v
    ensures r == Err(EmptyEmbedding) <==> v == []
    ensures r.Err? && v != [] ==> r.error == WrongDimension(|v|)
  {
    if v == [] then Err(EmptyEmbedding)
    else if |v| != EmbeddingDimension then Err(WrongDimension(|v|))
    else Ok(v)
  }

  // ---------------------------------------------------------------------------
  // EpisodeSummary

  /** A validated episode summary. */
  datatype EpisodeSummary = EpisodeSummary(
    episodeNumber: string,
    episodeAirdate: string,
    episodeTitle: string,
    episodeSummary: seq<string>,
    summaryEmbedding: seq<real>)

  predicate IsNumber(j: Json)
  {
    j.JInt? || j.JReal?
  }

  function NumberValue(j: Json): real
    requires IsNumber(j)
  {
    if j.JInt? then j.i as real else j.r
  }

  function StringField(raw: Object, name: string): Result<string, FieldError>
  {
    if name !in raw then Err(Missing(name))
    else if raw[name].JString? then Ok(raw[name].s)
    else Err(NotAString(name))
  }

  function StringListField(raw: Object, name: string): Result<seq<string>, FieldError>
  {
    if name !in raw then Err(Missing(name))
    else match raw[name]
      case JList(items) =>
        if forall i :: 0 <= i < |items| ==> items[i].JString?
        then Ok(seq(|items|, i requires 0 <= i < |items| => items[i].s))
        else Err(NotAStringList(name))
      case _ => Err(NotAStringList(name))
  }

  function FloatListField(raw: Object, name: string): Result<seq<real>, FieldError>
  {
    if name !in raw then Err(Missing(name))
    else match raw[name]
      case JList(items) =>
        if forall i :: 0 <= i < |items| ==> IsNumber(items[i])
        then Ok(seq(|items|, i requires 0 <= i < |items| => NumberValue(items[i])))
        else Err(NotAFloatList(name))
      case _ => Err(NotAFloatList(name))
  }

  function CheckEpisodeNumber(raw: Object): Result<string, FieldError>
  {
    match StringField(raw, "episode_number")
    case Err(e) => Err(e)
    case Ok(s) => if EpisodeNumberMatches(s) then Ok(s) else Err(PatternMismatch("episode_number"))
  }

  function CheckAirdate(raw: Object): Result<string, FieldError>
  {
    match StringField(raw, "episode_airdate")
    case Err(e) => Err(e)
    case Ok(s) => ValidateAirdate(s)
  }

  function CheckTitle(raw: Object): Result<string, FieldError>
  {
    StringField(raw, "episode_title")
  }

  function CheckSummary(raw: Object): Result<seq<string>, FieldError>
  {
    match StringListField(raw, "episode_summary")
    case Err(e) => Err(e)
    case Ok(v) => ValidateSummary(v)
  }

  function CheckEmbedding(raw: Object): Result<seq<real>, FieldError>
  {
    match FloatListField(raw, "summary_embedding")
    case Err(e) => Err(e)
    case Ok(v) => ValidateEmbedding(v)
  }

  function ErrorOf<T>(r: Result<T, FieldError>): seq<FieldError>
  {
    if r.Err? then [r.error] else []
  }

  /** Every field's error, in the order the model declares its fields. */
  function FieldErrors(raw: Object): seq<FieldError>
  {
    ErrorOf(CheckEpisodeNumber(raw)) + ErrorOf(CheckAirdate(raw)) + ErrorOf(CheckTitle(raw))
    + ErrorOf(CheckSummary(raw)) + ErrorOf(CheckEmbedding(raw))
  }

  /** All five field validators pass on `raw`. */
  predicate ValidEpisode(raw: Object)
  {
    CheckEpisodeNumber(raw).Ok? && CheckAirdate(raw).Ok? && CheckTitle(raw).Ok?
    && CheckSummary(raw).Ok? && CheckEmbedding(raw).Ok?
  }

  function SummaryOf(raw: Object): EpisodeSummary
    requires ValidEpisode(raw)
  {
    EpisodeSummary(CheckEpisodeNumber(raw).value, CheckAirdate(raw).value, CheckTitle(raw).value,
                   CheckSummary(raw).value, CheckEmbedding(raw).value)
  }

  /** What an accepted episode summary satisfies, in terms of the raw record
      it was built from: every field is there, unchanged (the embedding as
      the list of the record's numbers), and meets its rule. */
  ghost predicate AcceptedFrom(e: EpisodeSummary, raw: Object)
  {
    AcceptedStrings(e, raw) && AcceptedLists(e, raw)
  }

  /** The three string fields of an accepted summary: each is the record's
      string, unchanged, and meets its rule. */
  ghost predicate AcceptedStrings(e: EpisodeSummary, raw: Object)
  {
    && "episode_number" in raw && raw["episode_number"] == JString(e.episodeNumber)
    && EpisodeNumberMatches(e.episodeNumber)
    && "episode_airdate" in raw && raw["episode_airdate"] == JString(e.episodeAirdate)
    && ParseAirdate(e.episodeAirdate).Some?
    && "episode_title" in raw && raw["episode_title"] == JString(e.episodeTitle)
  }

  /** The two list fields of an accepted summary: the paragraphs are the
      record's strings, non-empty and long enough, and the embedding is the
      record's list of numbers, of the model's dimension. */
  ghost predicate AcceptedLists(e: EpisodeSummary, raw: Object)
  {
    && "episode_summary" in raw && raw["episode_summary"].JList?
    && raw["episode_summary"].items == seq(|e.episodeSummary|, i requires 0 <= i < |e.episodeSummary| => JString(e.episodeSummary[i]))
    && e.episodeSummary != []
    && (forall i :: 0 <= i < |e.episodeSummary| ==> |e.episodeSummary[i]| >= MinParagraphLength)
    && FloatListField(raw, "summary_embedding") == Ok(e.summaryEmbedding)
    && |e.summaryEmbedding| == EmbeddingDimension
  }

  /** A record determines the summary accepted from it, in every field. */
  lemma AcceptedUnique(e1: EpisodeSummary, e2: EpisodeSummary, raw: Object)
    requires AcceptedFrom(e1, raw) && AcceptedFrom(e2, raw)
    ensures e1 == e2
  {
    var items := raw["episode_summary"].items;
    var a, b := e1.episodeSummary, e2.episodeSummary;
    assert |a| == |items| == |b|;
    forall i | 0 <= i < |a| ensures a[i] == b[i] {
      assert items[i] == JString(a[i]) && items[i] == JString(b[i]);
    }
  }

  lemma SummaryListAccepted(raw: Object)
    requires CheckSummary(raw).Ok?
    ensures var v := CheckSummary(raw).value;
      "episode_summary" in raw && raw["episode_summary"].JList?
      && raw["episode_summary"].items == seq(|v|, i requires 0 <= i < |v| => JString(v[i]))
      && v != [] && forall i :: 0 <= i < |v| ==> |v[i]| >= MinParagraphLength
  {
    var v := CheckSummary(raw).value;
    var items := raw["episode_summary"].items;
    assert StringListField(raw, "episode_summary").Ok?;
    assert |items| == |v|;
    assert forall i :: 0 <= i < |items| ==> items[i] == JString(v[i]);
  }

  lemma SummaryAccepted(raw: Object)
    requires ValidEpisode(raw)
    ensures AcceptedFrom(SummaryOf(raw), raw)
  {
    SummaryListAccepted(raw);
    assert StringField(raw, "episode_number").Ok?;
    assert StringField(raw, "episode_airdate").Ok?;
    assert FloatListField(raw, "summary_embedding").Ok?;
  }

  /** `validate_single_episode`: the validated summary, or a `ValueError`
      with the episode prefix listing every failing field. */
  function ValidateSingleEpisode(data: Object): (r: Result<EpisodeSummary, ValidationFailure>)
    ensures r.Ok? <==> ValidEpisode(data)
    ensures r.Ok? ==> AcceptedFrom(r.value, data)
    ensures r.Err? ==> r.error.prefix == EpisodeFailurePrefix
                       && r.error.cause == FieldsInvalid(FieldErrors(data)) && FieldErrors(data) != []
  {
    if ValidEpisode(data) then
      SummaryAccepted(data);
      Ok(SummaryOf(data))
    else Err(ValueError(EpisodeFailurePrefix, FieldsInvalid(FieldErrors(data))))
  }

  // ---------------------------------------------------------------------------
  // Whole dataset

  /** Validated data, in the same order. */
  type SeasonData = seq<(string, EpisodeSummary)>
  type BuffyData = seq<(string, SeasonData)>

  /** pydantic's error list for one season: an entry for every episode
      that fails, in order. */
  function SeasonErrors(key: string, season: RawSeason): seq<EpisodeErrors>
  {
    if season == [] then []
    else
      (if ValidEpisode(season[0].1) then []
       else [EpisodeErrors(key, season[0].0, FieldErrors(season[0].1))])
      + SeasonErrors(key, season[1..])
  }

  /** A season has no errors exactly when every episode passes. */
  lemma {:induction false} SeasonErrorsEmpty(key: string, season: RawSeason)
    ensures SeasonErrors(key, season) == [] <==> forall j :: 0 <= j < |season| ==> ValidEpisode(season[j].1)
    decreases |season|
  {
    if season != [] {
      SeasonErrorsEmpty(key, season[1..]);
      assert forall j :: 1 <= j < |season| ==> season[j] == season[1..][j - 1];
    }
  }

  /** `BuffyData(__root__=data)`: pydantic's error list for the whole dataset. */
  function CorpusErrors(data: RawCorpus): (errs: seq<EpisodeErrors>)
    ensures errs == [] <==> forall i, j :: 0 <= i < |data| && 0 <= j < |data[i].1| ==> ValidEpisode(data[i].1[j].1)
  {
    if data == [] then []
    else
      assert forall i :: 1 <= i < |data| ==> data[i] == data[1..][i - 1];
      SeasonErrorsEmpty(data[0].0, data[0].1);
      SeasonErrors(data[0].0, data[0].1) + CorpusErrors(data[1..])
  }

  predicate AllEpisodesValid(data: RawCorpus)
  {
    forall i, j :: 0 <= i < |data| && 0 <= j < |data[i].1| ==> ValidEpisode(data[i].1[j].1)
  }

  function ParseCorpus(data: RawCorpus): (d: BuffyData)
    requires AllEpisodesValid(data)
    ensures |d| == |data|
    ensures forall i :: 0 <= i < |d| ==> d[i].0 == data[i].0 && |d[i].1| == |data[i].1|
    ensures forall i, j :: 0 <= i < |d| && 0 <= j < |d[i].1| ==>
              d[i].1[j].0 == data[i].1[j].0 && AcceptedFrom(d[i].1[j].1, data[i].1[j].1)
  {
    seq(|data|, i requires 0 <= i < |data| =>
      (data[i].0, seq(|data[i].1|, j requires 0 <= j < |data[i].1| =>
        (data[i].1[j].0, ValidateSingleEpisode(data[i].1[j].1).value))))
  }

  /** `[1, 2, ..., n]`, Python's `list(range(1, n + 1))`. */
  function RangeFrom1(n: nat): (r: seq<int>)
    ensures |r| == n
  {
    if n == 0 then [] else RangeFrom1(n - 1) + [n]
  }

  lemma {:induction false} RangeFrom1At(n: nat, i: nat)
    requires i < n
    ensures RangeFrom1(n)[i] == i + 1
  {
    if i < n - 1 {
      RangeFrom1At(n - 1, i);
    }
  }

  /** `ns == list(range(1, len(ns) + 1))`. */
  predicate Contiguous(ns: seq<int>)
  {
    ns == RangeFrom1(|ns|)
  }

  /** Position i holds i + 1. */
  lemma ContiguousAt(ns: seq<int>)
    ensures Contiguous(ns) <==> forall i :: 0 <= i < |ns| ==> ns[i] == i + 1
  {
    forall i | 0 <= i < |ns| {
      RangeFrom1At(|ns|, i);
    }
  }

  /** The numbering rule without reference to positions: numbers run from 1
      to n in strictly increasing order exactly when they are `[1..n]`; so a
      duplicate, an out-of-order number or a gap each break it. */
  lemma {:induction false} ContiguousIff(ns: seq<int>)
    ensures Contiguous(ns) <==>
      (forall i, j :: 0 <= i < j < |ns| ==> ns[i] < ns[j])
      && (forall i :: 0 <= i < |ns| ==> 1 <= ns[i] <= |ns|)
  {
    ContiguousAt(ns);
    if (forall i, j :: 0 <= i < j < |ns| ==> ns[i] < ns[j])
       && (forall i :: 0 <= i < |ns| ==> 1 <= ns[i] <= |ns|) {
      forall i | 0 <= i < |ns| ensures ns[i] == i + 1 {
        LowerBound(ns, i);
        UpperBound(ns, i);
      }
    }
  }

  lemma {:induction false} LowerBound(ns: seq<int>, i: nat)
    requires i < |ns|
    requires forall i, j :: 0 <= i < j < |ns| ==> ns[i] < ns[j]
    requires forall i :: 0 <= i < |ns| ==> 1 <= ns[i]
    ensures ns[i] >= i + 1
  {
    if i > 0 {
      LowerBound(ns, i - 1);
    }
  }

  lemma {:induction false} UpperBound(ns: seq<int>, i: nat)
    requires i < |ns|
    requires forall i, j :: 0 <= i < j < |ns| ==> ns[i] < ns[j]
    requires forall i :: 0 <= i < |ns| ==> ns[i] <= |ns|
    ensures ns[i] <= i + 1
    decreases |ns| - i
  {
    if i < |ns| - 1 {
      UpperBound(ns, i + 1);
    }
  }

  /** `[int(k.split('_')[1]) for k in keys]`; the first key that does not
      parse raises. */
  function SeasonNumbers(d: BuffyData): (r: Result<seq<int>, KeyError>)
    ensures r.Ok? ==> |r.value| == |d| && forall i :: 0 <= i < |d| ==> SeasonNumberOf(d[i].0) == Ok(r.value[i])
    ensures r.Err? ==> exists i :: 0 <= i < |d| && SeasonNumberOf(d[i].0) == Err(r.error)
                         && forall k :: 0 <= k < i ==> SeasonNumberOf(d[k].0).Ok?
  {
    if d == [] then Ok([])
    else match SeasonNumberOf(d[0].0)
      case Err(e) => Err(e)
      case Ok(n) =>
        assert forall i :: 1 <= i < |d| ==> d[i] == d[1..][i - 1];
        match SeasonNumbers(d[1..])
        case Err(e) => Err(e)
        case Ok(ns) => Ok([n] + ns)
  }

  /** `BuffyData.validate_season_numbers`: the season in position i is
      numbered i + 1. An empty dataset passes; a parse failure raises. */
  function ValidateSeasonNumbers(d: BuffyData): (r: Result<bool, KeyError>)
    ensures r == Ok(true) <==> forall i :: 0 <= i < |d| ==> SeasonNumberOf(d[i].0) == Ok(i + 1)
    ensures r.Err? <==> exists i :: 0 <= i < |d| && SeasonNumberOf(d[i].0).Err?
  {
    match SeasonNumbers(d)
    case Err(e) => Err(e)
    case Ok(ns) =>
      ContiguousAt(ns);
      Ok(Contiguous(ns))
  }

  /** `[int(ep.episode_number) for ep in season.values()]`. */
  function EpisodeNumbers(season: SeasonData): (r: Result<seq<int>, string>)
    ensures r.Ok? ==> |r.value| == |season|
                      && forall j :: 0 <= j < |season| ==> PyInt(season[j].1.episodeNumber) == Some(r.value[j])
    ensures r.Err? <==> exists j :: 0 <= j < |season| && PyInt(season[j].1.episodeNumber).None?
  {
    if season == [] then Ok([])
    else match PyInt(season[0].1.episodeNumber)
      case None => Err(season[0].1.episodeNumber)
      case Some(n) =>
        assert forall j :: 1 <= j < |season| ==> season[j] == season[1..][j - 1];
        match EpisodeNumbers(season[1..])
        case Err(e) => Err(e)
        case Ok(ns) => Ok([n] + ns)
  }

  /** Season `s` is numbered 1, 2, ... in order, by its records' own
      `episode_number` fields (the episode keys play no part). */
  ghost predicate SeasonContiguous(season: SeasonData)
  {
    forall j :: 0 <= j < |season| ==> PyInt(season[j].1.episodeNumber) == Some(j + 1)
  }

  /** `BuffyData.validate_episode_numbers`: seasons are checked in order and
      the first season that is not numbered 1..n makes the answer false; a
      number that does not parse raises. */
  function ValidateEpisodeNumbers(d: BuffyData): (r: Result<bool, string>)
    ensures r == Ok(true) <==> forall i :: 0 <= i < |d| ==> SeasonContiguous(d[i].1)
    ensures r == Ok(false) ==> exists i :: 0 <= i < |d| && !SeasonContiguous(d[i].1)
    ensures r.Err? ==> exists i, j :: 0 <= i < |d| && 0 <= j < |d[i].1| && PyInt(d[i].1[j].1.episodeNumber) == None
  {
    if d == [] then Ok(true)
    else
      assert forall i :: 1 <= i < |d| ==> d[i] == d[1..][i - 1];
      match EpisodeNumbers(d[0].1)
      case Err(e) => Err(e)
      case Ok(ns) =>
        ContiguousAt(ns);
        if !Contiguous(ns) then Ok(false) else ValidateEpisodeNumbers(d[1..])
  }

  /** The episode-number check as written. `Field(..., pattern=...)` is the
      keyword of pydantic version 2, but the `__root__` models need version
      1, whose keyword is `regex=`; version 1 keeps `pattern` in the schema
      only and checks nothing. So the field is only required to be a string. */
  function CheckEpisodeNumberAsWritten(raw: Object): (r: Result<string, FieldError>)
    ensures r.Ok? <==> "episode_number" in raw && raw["episode_number"].JString?
    ensures r.Ok? ==> r.value == raw["episode_number"].s
  {
    StringField(raw, "episode_number")
  }

  /** What the unchecked pattern lets through: "1" and "x" pass as written
      but not as intended, and an "x" that reaches the numbering check makes
      `int(ep.episode_number)` raise. */
  lemma PatternNotEnforcedAsWritten()
    ensures var raw := map["episode_number" := JString("1")];
      CheckEpisodeNumberAsWritten(raw) == Ok("1") && CheckEpisodeNumber(raw).Err?
    ensures var raw := map["episode_number" := JString("x")];
      CheckEpisodeNumberAsWritten(raw) == Ok("x") && CheckEpisodeNumber(raw).Err?
    ensures ValidateEpisodeNumbers([("season_1", [("01", EpisodeSummary("x", "", "", [], []))])]) == Err("x")
  {
    assert LStrip("x") == "x" && RStrip("x") == "x";
    assert PyInt("x") == None;
  }

  /** A number that passed the `^\d{2}$` pattern always converts with `int`. */
  lemma EpisodeNumberParses(s: string)
    requires EpisodeNumberMatches(s)
    ensures PyInt(s) == Some(10 * DigitValue(s[0]) + DigitValue(s[1]))
  {
    assert forall i :: 0 <= i < |s| ==> !IsIntSpace(s[i]);
    NoSpaceStrips(s);
    assert s[0] != '-' && s[0] != '+';
    assert s[..1][..0] == [];
    assert DigitsValue(s[..1]) == DigitValue(s[0]);
  }

  /** So on data that passed the schema, the episode-numbering check never
      raises: it only answers true or false. */
  lemma EpisodeNumbersOfValidData(data: RawCorpus)
    requires AllEpisodesValid(data)
    ensures ValidateEpisodeNumbers(ParseCorpus(data)).Ok?
  {
    var d := ParseCorpus(data);
    forall i, j | 0 <= i < |d| && 0 <= j < |d[i].1|
      ensures PyInt(d[i].1[j].1.episodeNumber).Some?
    {
      EpisodeNumberParses(d[i].1[j].1.episodeNumber);
    }
  }

  /** `validate_episode_data`: the schema, then the season numbering, then
      the episode numbering; any failure becomes a `ValueError` carrying the
      data prefix. */
  function ValidateEpisodeData(data: RawCorpus): (r: Result<BuffyData, ValidationFailure>)
    ensures r.Err? ==> r.error.prefix == DataFailurePrefix
    ensures !AllEpisodesValid(data) ==> r == Err(ValueError(DataFailurePrefix, SchemaInvalid(CorpusErrors(data))))
    ensures r.Ok? <==>
      AllEpisodesValid(data)
      && ValidateSeasonNumbers(ParseCorpus(data)) == Ok(true)
      && ValidateEpisodeNumbers(ParseCorpus(data)) == Ok(true)
    ensures AllEpisodesValid(data) && ValidateSeasonNumbers(ParseCorpus(data)) == Ok(false)
            ==> r == Err(ValueError(DataFailurePrefix, InvalidSequence(SeasonSequenceMessage)))
    ensures AllEpisodesValid(data) && ValidateSeasonNumbers(ParseCorpus(data)).Err?
            ==> r == Err(ValueError(DataFailurePrefix, SeasonKeyInvalid(ValidateSeasonNumbers(ParseCorpus(data)).error)))
    ensures AllEpisodesValid(data) && ValidateSeasonNumbers(ParseCorpus(data)) == Ok(true)
            && ValidateEpisodeNumbers(ParseCorpus(data)) == Ok(false)
            ==> r == Err(ValueError(DataFailurePrefix, InvalidSequence(EpisodeSequenceMessage)))
    ensures r.Ok? ==> r.value == ParseCorpus(data)
  {
    if CorpusErrors(data) != [] then Err(ValueError(DataFailurePrefix, SchemaInvalid(CorpusErrors(data))))
    else
      var d := ParseCorpus(data);
      match ValidateSeasonNumbers(d)
      case Err(e) => Err(ValueError(DataFailurePrefix, SeasonKeyInvalid(e)))
      case Ok(false) => Err(ValueError(DataFailurePrefix, InvalidSequence(SeasonSequenceMessage)))
      case Ok(true) =>
        match ValidateEpisodeNumbers(d)
        case Err(text) => Err(ValueError(DataFailurePrefix, EpisodeNumberNotInteger(text)))
        case Ok(false) => Err(ValueError(DataFailurePrefix, InvalidSequence(EpisodeSequenceMessage)))
        case Ok(true) => Ok(d)
  }
}
