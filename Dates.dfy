/** Timestamps and the fixed custom date-format patterns the program uses,
    with a strict parser (`DateTimeOffset.ParseExact`) and a formatter
    (`DateTimeOffset.ToString`) for each. The English (invariant) names of
    days and months, and ':' as the time separator, are assumed throughout. */
module Dates {
  import opened Results
  import opened Text

  /** The local clock reading of a `DateTimeOffset`; the offset is not modelled. */
  datatype Timestamp = Timestamp(year: nat, month: nat, day: nat, hour: nat, minute: nat, second: nat)

  predicate IsLeapYear(y: nat) {
    y % 4 == 0 && (y % 100 != 0 || y % 400 == 0)
  }

  function DaysInMonth(y: nat, m: nat): nat
    requires 1 <= m <= 12
  {
    if m == 2 then (if IsLeapYear(y) then 29 else 28)
    else if m == 4 || m == 6 || m == 9 || m == 11 then 30
    else 31
  }

  /** A point of the proleptic Gregorian calendar that `DateTime` can hold. */
  predicate IsValid(t: Timestamp) {
    && 1 <= t.year <= 9999
    && 1 <= t.month <= 12
    && 1 <= t.day <= DaysInMonth(t.year, t.month)
    && t.hour < 24 && t.minute < 60 && t.second < 60
  }

  /** One element of a custom format string: a zero-padded number of fixed
      width (`yyyy`, `MM`, `dd`, `HH`, `mm`, `ss`), an abbreviated month name
      (`MMM`), an abbreviated day name (`ddd`) or a literal character. */
  datatype Token = Digits(width: nat) | MonthAbbrev | DayAbbrev | Literal(c: char)

  type Pattern = seq<Token>

  const MonthNames: seq<string> :=
    ["Jan", "Feb", "Mar", "Apr", "May", "Jun", "Jul", "Aug", "Sep", "Oct", "Nov", "Dec"]

  /** Indexed as `DayOfWeek`: Sunday is 0. */
  const DayNames: seq<string> := ["Sun", "Mon", "Tue", "Wed", "Thu", "Fri", "Sat"]

  function Width(t: Token): nat {
    match t
    case Digits(w) => w
    case MonthAbbrev => 3
    case DayAbbrev => 3
    case Literal(_) => 1
  }

  /** Values are given one per token: the number, the month (1 to 12), the
      day of the week (0 to 6), or 0 for a literal. */
  predicate TokenFits(t: Token, v: nat) {
    match t
    case Digits(w) => v < Pow10(w)
    case MonthAbbrev => 1 <= v <= 12
    case DayAbbrev => v < 7
    case Literal(_) => v == 0
  }

  predicate Fits(p: Pattern, vs: seq<nat>) {
    |vs| == |p| && forall i :: 0 <= i < |p| ==> TokenFits(p[i], vs[i])
  }

  predicate NamesFree(p: Pattern) {
    forall i :: 0 <= i < |p| ==> !p[i].MonthAbbrev? && !p[i].DayAbbrev?
  }

  function TotalWidth(p: Pattern): nat {
    if p == [] then 0 else Width(p[0]) + TotalWidth(p[1..])
  }

  predicate LettersFreeLiterals(p: Pattern) {
    forall i :: 0 <= i < |p| ==> p[i].Literal? ==> !IsLetter(p[i].c)
  }

  function RenderToken(t: Token, v: nat): (r: string)
    requires TokenFits(t, v)
    ensures |r| == Width(t)
  {
    match t
    case Digits(w) => Pad(v, w)
    case MonthAbbrev => MonthNames[v - 1]
    case DayAbbrev => DayNames[v]
    case Literal(c) => [c]
  }

  /** The text `ToString` produces for the pattern and the field values. */
  function Render(p: Pattern, vs: seq<nat>): (r: string)
    requires Fits(p, vs)
    ensures |r| == TotalWidth(p)
  {
    if p == [] then "" else RenderToken(p[0], vs[0]) + Render(p[1..], vs[1..])
  }

  /** The first index from `from` on whose name equals `chunk` ignoring case. */
  function FindName(names: seq<string>, chunk: string, from: nat): (r: Option<nat>)
    requires from <= |names|
    ensures r.Some? ==> from <= r.value < |names| && EqualsIgnoreCase(chunk, names[r.value])
    ensures r.Some? ==> forall j :: from <= j < r.value ==> !EqualsIgnoreCase(chunk, names[j])
    ensures r.None? ==> forall j :: from <= j < |names| ==> !EqualsIgnoreCase(chunk, names[j])
    decreases |names| - from
  {
    if from == |names| then None
    else if EqualsIgnoreCase(chunk, names[from]) then Some(from)
    else FindName(names, chunk, from + 1)
  }

  /** Matches one token against a chunk of exactly its width. */
  function ParseToken(t: Token, chunk: string): (r: Option<nat>)
    ensures r.Some? ==> TokenFits(t, r.value)
  {
    match t
    case Digits(w) =>
      if |chunk| == w && AllDigits(chunk) then Some(DigitsValue(chunk)) else None
    case MonthAbbrev =>
      (match FindName(MonthNames, chunk, 0) case None => None case Some(i) => Some(i + 1))
    case DayAbbrev =>
      FindName(DayNames, chunk, 0)
    case Literal(c) =>
      if chunk == [c] then Some(0) else None
  }

  /** Strict parse of `s` against the pattern: every token must match in
      turn and no character may be left over. */
  function ParsePattern(p: Pattern, s: string): (r: Option<seq<nat>>)
    ensures r.Some? ==> Fits(p, r.value)
  {
    if p == [] then (if s == [] then Some([]) else None)
    else
      var w := Width(p[0]);
      if |s| < w then None
      else match ParseToken(p[0], s[..w])
        case None => None
        case Some(v) =>
          match ParsePattern(p[1..], s[w..])
          case None => None
          case Some(vs) => Some([v] + vs)
  }

  /** The name at index `i` is found at `i` when no earlier name equals it
      ignoring case. */
  lemma FirstNameFound(names: seq<string>, i: nat)
    requires i < |names|
    requires forall j :: 0 <= j < i ==> !EqualsIgnoreCase(names[i], names[j])
    ensures FindName(names, names[i], 0) == Some(i)
  {
    var r := FindName(names, names[i], 0);
    assert EqualsIgnoreCase(names[i], names[i]);
    assert r.Some? && !(r.value < i) && !(i < r.value);
  }

  lemma ThreeLettersDiffer(a: string, b: string)
    requires |a| == 3 && |b| == 3
    requires LowerChar(a[0]) != LowerChar(b[0]) || LowerChar(a[1]) != LowerChar(b[1]) || LowerChar(a[2]) != LowerChar(b[2])
    ensures !EqualsIgnoreCase(a, b)
  {
  }

  lemma MonthNameFound(i: nat)
    requires i < 12
    ensures FindName(MonthNames, MonthNames[i], 0) == Some(i)
  {
    forall j | 0 <= j < i ensures !EqualsIgnoreCase(MonthNames[i], MonthNames[j]) {
      ThreeLettersDiffer(MonthNames[i], MonthNames[j]);
    }
    FirstNameFound(MonthNames, i);
  }

  lemma DayNameFound(i: nat)
    requires i < 7
    ensures FindName(DayNames, DayNames[i], 0) == Some(i)
  {
    forall j | 0 <= j < i ensures !EqualsIgnoreCase(DayNames[i], DayNames[j]) {
      ThreeLettersDiffer(DayNames[i], DayNames[j]);
    }
    FirstNameFound(DayNames, i);
  }

  lemma ParseRenderedToken(t: Token, v: nat)
    requires TokenFits(t, v)
    ensures ParseToken(t, RenderToken(t, v)) == Some(v)
  {
    match t
    case Digits(w) => ValueOfPad(v, w);
    case MonthAbbrev => MonthNameFound(v - 1);
    case DayAbbrev => DayNameFound(v);
    case Literal(_) =>
  }

  /** Whatever a value fitting the token parses from, it renders back to,
      up to the case of the letters of a name. */
  lemma RenderParsedToken(t: Token, chunk: string)
    requires |chunk| == Width(t) && ParseToken(t, chunk).Some?
    ensures EqualsIgnoreCase(chunk, RenderToken(t, ParseToken(t, chunk).value))
    ensures !t.MonthAbbrev? && !t.DayAbbrev? ==> chunk == RenderToken(t, ParseToken(t, chunk).value)
  {
    match t
    case Digits(w) => PadOfValue(chunk);
    case MonthAbbrev =>
    case DayAbbrev =>
    case Literal(_) =>
  }

  lemma TokenIgnoresCase(t: Token, a: string, b: string)
    requires t.Literal? ==> !IsLetter(t.c)
    requires EqualsIgnoreCase(a, b)
    ensures ParseToken(t, a) == ParseToken(t, b)
  {
    match t
    case Digits(w) => DigitsTokenIgnoresCase(w, a, b);
    case MonthAbbrev => FindNameIgnoresCase(MonthNames, a, b, 0);
    case DayAbbrev => FindNameIgnoresCase(DayNames, a, b, 0);
    case Literal(c) => LiteralTokenIgnoresCase(c, a, b);
  }

  lemma DigitsTokenIgnoresCase(w: nat, a: string, b: string)
    requires EqualsIgnoreCase(a, b)
    ensures ParseToken(Digits(w), a) == ParseToken(Digits(w), b)
  {
    if AllDigits(a) {
      DigitsIgnoreCase(a, b);
    } else if AllDigits(b) {
      DigitsIgnoreCase(b, a);
    }
  }

  lemma LiteralTokenIgnoresCase(c: char, a: string, b: string)
    requires !IsLetter(c) && EqualsIgnoreCase(a, b)
    ensures ParseToken(Literal(c), a) == ParseToken(Literal(c), b)
  {
    assert |a| == |Lower(a)| == |b|;
    if |a| == 1 {
      assert Lower(a)[0] == Lower(b)[0];
      if a == [c] {
        LowerFixesNonLetter(c, b[0]);
        assert b == [c];
      } else if b == [c] {
        LowerFixesNonLetter(c, a[0]);
      }
    }
  }

  lemma {:induction false} FindNameIgnoresCase(names: seq<string>, a: string, b: string, from: nat)
    requires from <= |names| && EqualsIgnoreCase(a, b)
    ensures FindName(names, a, from) == FindName(names, b, from)
    decreases |names| - from
  {
    if from < |names| {
      FindNameIgnoresCase(names, a, b, from + 1);
    }
  }

  /** Parsing what was rendered gives back the values. */
  lemma {:induction false} ParseRendered(p: Pattern, vs: seq<nat>)
    requires Fits(p, vs)
    ensures ParsePattern(p, Render(p, vs)) == Some(vs)
  {
    if p != [] {
      var s := Render(p, vs);
      var head := RenderToken(p[0], vs[0]);
      assert s[..Width(p[0])] == head && s[Width(p[0])..] == Render(p[1..], vs[1..]);
      ParseRenderedToken(p[0], vs[0]);
      FitsTail(p, vs);
      ParseRendered(p[1..], vs[1..]);
      HeadTail(vs);
    }
  }

  /** A string the pattern accepts is the rendering of the values it yields,
      up to the case of the letters of the names. */
  lemma {:induction false} RenderParsed(p: Pattern, s: string)
    requires ParsePattern(p, s).Some?
    ensures EqualsIgnoreCase(s, Render(p, ParsePattern(p, s).value))
  {
    if p != [] {
      var w := Width(p[0]);
      var vs := ParsePattern(p, s).value;
      var rest := ParsePattern(p[1..], s[w..]).value;
      assert vs[0] == ParseToken(p[0], s[..w]).value && vs[1..] == rest;
      var head := RenderToken(p[0], vs[0]);
      assert Render(p, vs) == head + Render(p[1..], rest);
      RenderParsedToken(p[0], s[..w]);
      RenderParsed(p[1..], s[w..]);
      SplitAt(s, w);
      IgnoreCaseConcat(s[..w], s[w..], head, Render(p[1..], rest));
    } else {
      assert s == [];
    }
  }

  /** Without names in the pattern the accepted string is exactly that
      rendering: the strict parse admits one spelling per value. */
  lemma {:induction false} RenderParsedExactly(p: Pattern, s: string)
    requires NamesFree(p) && ParsePattern(p, s).Some?
    ensures s == Render(p, ParsePattern(p, s).value)
  {
    if p != [] {
      var w := Width(p[0]);
      var vs := ParsePattern(p, s).value;
      var rest := ParsePattern(p[1..], s[w..]).value;
      assert vs[0] == ParseToken(p[0], s[..w]).value && vs[1..] == rest;
      var head := RenderToken(p[0], vs[0]);
      assert Render(p, vs) == head + Render(p[1..], rest);
      NoNamesInTail(p);
      RenderParsedToken(p[0], s[..w]);
      RenderParsedExactly(p[1..], s[w..]);
      SplitAt(s, w);
    } else {
      assert s == [];
    }
  }

  lemma NoNamesInTail(p: Pattern)
    requires p != [] && NamesFree(p)
    ensures !p[0].MonthAbbrev? && !p[0].DayAbbrev? && NamesFree(p[1..])
  {
    forall i | 0 <= i < |p[1..]| ensures !p[1..][i].MonthAbbrev? && !p[1..][i].DayAbbrev? {
      assert p[1..][i] == p[i + 1];
    }
  }

  /** The parse ignores the case of letters, as long as the pattern's
      literals are not letters themselves. */
  lemma {:induction false} ParseIgnoresCase(p: Pattern, a: string, b: string)
    requires LettersFreeLiterals(p)
    requires EqualsIgnoreCase(a, b)
    ensures ParsePattern(p, a) == ParsePattern(p, b)
  {
    assert |a| == |Lower(a)| == |b|;
    if p != [] {
      var w := Width(p[0]);
      if w <= |a| {
        SplitAt(a, w);
        SplitAt(b, w);
        LowerConcat(a[..w], a[w..]);
        LowerConcat(b[..w], b[w..]);
        assert Lower(a[..w]) == Lower(a)[..w] == Lower(b)[..w] == Lower(b[..w]);
        assert Lower(a[w..]) == Lower(a)[w..] == Lower(b)[w..] == Lower(b[w..]);
        TokenIgnoresCase(p[0], a[..w], b[..w]);
        assert LettersFreeLiterals(p[1..]) by {
          forall i | 0 <= i < |p[1..]| ensures p[1..][i].Literal? ==> !IsLetter(p[1..][i].c) {
            assert p[1..][i] == p[i + 1];
          }
        }
        ParseIgnoresCase(p[1..], a[w..], b[w..]);
      }
    }
  }

  /** `yyyy:MM:dd HH:mm:ss`, the pattern of a "Date/Time Original" tag. */
  const OriginalPattern: Pattern :=
    [Digits(4), Literal(':'), Digits(2), Literal(':'), Digits(2), Literal(' '),
     Digits(2), Literal(':'), Digits(2), Literal(':'), Digits(2)]

  /** `ddd MMM dd HH:mm:ss yyyy`, the pattern of a "Created" tag. */
  const CreatedPattern: Pattern :=
    [DayAbbrev, Literal(' '), MonthAbbrev, Literal(' '), Digits(2), Literal(' '),
     Digits(2), Literal(':'), Digits(2), Literal(':'), Digits(2), Literal(' '), Digits(4)]

  /** `yyyy-MM-dd`, the destination folder name. */
  const FolderPattern: Pattern :=
    [Digits(4), Literal('-'), Digits(2), Literal('-'), Digits(2)]

  /** `yyyy-MM-dd HHmm`, the destination file stem. */
  const StemPattern: Pattern :=
    [Digits(4), Literal('-'), Digits(2), Literal('-'), Digits(2), Literal(' '), Digits(2), Digits(2)]

  function OriginalValues(t: Timestamp): seq<nat> {
    [t.year, 0, t.month, 0, t.day, 0, t.hour, 0, t.minute, 0, t.second]
  }

  function FolderValues(t: Timestamp): seq<nat> {
    [t.year, 0, t.month, 0, t.day]
  }

  function StemValues(t: Timestamp): seq<nat> {
    [t.year, 0, t.month, 0, t.day, 0, t.hour, t.minute]
  }

  function CreatedValues(t: Timestamp, weekday: nat): seq<nat> {
    [weekday, 0, t.month, 0, t.day, 0, t.hour, 0, t.minute, 0, t.second, 0, t.year]
  }

  /** `ParseExact(s, "yyyy:MM:dd HH:mm:ss", null)`: the fields must be
      digits of exactly their widths and must name a real date and time. */
  function ParseOriginal(s: string): (r: Option<Timestamp>)
    ensures r.Some? ==> IsValid(r.value)
  {
    match ParsePattern(OriginalPattern, s)
    case None => None
    case Some(vs) =>
      var t := Timestamp(vs[0], vs[2], vs[4], vs[6], vs[8], vs[10]);
      if IsValid(t) then Some(t) else None
  }

  /** `ParseExact(s, "ddd MMM dd HH:mm:ss yyyy", null)`. The day name must be
      one of the seven; whether it agrees with the date is not checked. */
  function ParseCreated(s: string): (r: Option<Timestamp>)
    ensures r.Some? ==> IsValid(r.value)
  {
    match ParsePattern(CreatedPattern, s)
    case None => None
    case Some(vs) =>
      var t := Timestamp(vs[12], vs[2], vs[4], vs[6], vs[8], vs[10]);
      if IsValid(t) then Some(t) else None
  }

  function FormatOriginal(t: Timestamp): string
    requires IsValid(t)
  {
    Render(OriginalPattern, OriginalValues(t))
  }

  function FormatCreated(t: Timestamp, weekday: nat): string
    requires IsValid(t) && weekday < 7
  {
    Render(CreatedPattern, CreatedValues(t, weekday))
  }

  /** `ToString("yyyy-MM-dd")`. */
  function FolderName(t: Timestamp): string
    requires IsValid(t)
  {
    Render(FolderPattern, FolderValues(t))
  }

  /** `ToString("yyyy-MM-dd HHmm")`. */
  function FileStem(t: Timestamp): string
    requires IsValid(t)
  {
    Render(StemPattern, StemValues(t))
  }

  /** The strict "Date/Time Original" parse accepts exactly the canonical
      spelling of a valid timestamp. */
  lemma OriginalRoundTrip(s: string, t: Timestamp)
    ensures ParseOriginal(s) == Some(t) <==> IsValid(t) && s == FormatOriginal(t)
  {
    if ParseOriginal(s) == Some(t) {
      OriginalParsedIsCanonical(s);
    }
    if IsValid(t) && s == FormatOriginal(t) {
      OriginalFormattedParses(t);
    }
  }

  lemma OriginalFormattedParses(t: Timestamp)
    requires IsValid(t)
    ensures ParseOriginal(FormatOriginal(t)) == Some(t)
  {
    var vs := OriginalValues(t);
    TagFieldsFit(t, 0);
    ParseRendered(OriginalPattern, vs);
    assert ParsePattern(OriginalPattern, FormatOriginal(t)) == Some(vs);
    assert Timestamp(vs[0], vs[2], vs[4], vs[6], vs[8], vs[10]) == t;
  }

  lemma OriginalParsedIsCanonical(s: string)
    requires ParseOriginal(s).Some?
    ensures s == FormatOriginal(ParseOriginal(s).value)
  {
    var vs := ParsePattern(OriginalPattern, s).value;
    assert NamesFree(OriginalPattern);
    RenderParsedExactly(OriginalPattern, s);
    OriginalValuesShape(vs, ParseOriginal(s).value);
  }

  lemma OriginalValuesShape(vs: seq<nat>, t: Timestamp)
    requires Fits(OriginalPattern, vs)
    requires t == Timestamp(vs[0], vs[2], vs[4], vs[6], vs[8], vs[10])
    ensures vs == OriginalValues(t)
  {
    assert TokenFits(OriginalPattern[1], vs[1]) && TokenFits(OriginalPattern[3], vs[3]);
    assert TokenFits(OriginalPattern[5], vs[5]) && TokenFits(OriginalPattern[7], vs[7]);
    assert TokenFits(OriginalPattern[9], vs[9]);
  }

  /** Every valid timestamp, written with any day name, parses back as a
      "Created" description. */
  lemma CreatedRoundTrip(t: Timestamp, weekday: nat)
    requires IsValid(t) && weekday < 7
    ensures ParseCreated(FormatCreated(t, weekday)) == Some(t)
  {
    var vs := CreatedValues(t, weekday);
    assert ParsePattern(CreatedPattern, FormatCreated(t, weekday)) == Some(vs) by {
      TagFieldsFit(t, weekday);
      ParseRendered(CreatedPattern, vs);
    }
    assert Timestamp(vs[12], vs[2], vs[4], vs[6], vs[8], vs[10]) == t;
  }

  /** A "Created" description that parses is the canonical spelling of the
      result with some day name, up to letter case. */
  lemma CreatedParsedIsCanonical(s: string, t: Timestamp)
    requires ParseCreated(s) == Some(t)
    ensures exists weekday :: weekday < 7 && EqualsIgnoreCase(s, FormatCreated(t, weekday))
  {
    var vs := ParsePattern(CreatedPattern, s).value;
    CreatedValuesParsed(s);
    RenderParsed(CreatedPattern, s);
    assert EqualsIgnoreCase(s, FormatCreated(t, vs[0]));
  }

  lemma CreatedValuesParsed(s: string)
    requires ParseCreated(s).Some?
    ensures var vs := ParsePattern(CreatedPattern, s).value;
      |vs| == 13 && vs[0] < 7 && vs == CreatedValues(ParseCreated(s).value, vs[0])
  {
    var vs := ParsePattern(CreatedPattern, s).value;
    CreatedValuesShape(vs, ParseCreated(s).value);
  }

  lemma CreatedValuesShape(vs: seq<nat>, t: Timestamp)
    requires Fits(CreatedPattern, vs)
    requires t == Timestamp(vs[12], vs[2], vs[4], vs[6], vs[8], vs[10])
    ensures vs[0] < 7 && vs == CreatedValues(t, vs[0])
  {
    assert TokenFits(CreatedPattern[0], vs[0]) && TokenFits(CreatedPattern[1], vs[1]);
    assert TokenFits(CreatedPattern[3], vs[3]) && TokenFits(CreatedPattern[5], vs[5]);
    assert TokenFits(CreatedPattern[7], vs[7]) && TokenFits(CreatedPattern[9], vs[9]);
    assert TokenFits(CreatedPattern[11], vs[11]);
  }

  /** The day and month names of a "Created" description are matched
      ignoring case. */
  lemma CreatedIgnoresCase(a: string, b: string)
    requires EqualsIgnoreCase(a, b)
    ensures ParseCreated(a) == ParseCreated(b)
  {
    assert LettersFreeLiterals(CreatedPattern);
    ParseIgnoresCase(CreatedPattern, a, b);
  }

  lemma {:induction false} RenderConcat(p: Pattern, q: Pattern, vs: seq<nat>, ws: seq<nat>)
    requires Fits(p, vs) && Fits(q, ws)
    ensures Fits(p + q, vs + ws) && Render(p + q, vs + ws) == Render(p, vs) + Render(q, ws)
  {
    FitsConcat(p, q, vs, ws);
    if p != [] {
      FitsTail(p, vs);
      RenderConcat(p[1..], q, vs[1..], ws);
      var head, a, b := RenderToken(p[0], vs[0]), Render(p[1..], vs[1..]), Render(q, ws);
      AppendTail(p, q);
      AppendTail(vs, ws);
      assert Render(p + q, vs + ws) == head + (a + b);
      AppendAssoc(head, a, b);
    } else {
      assert p + q == q && vs + ws == ws;
    }
  }

  lemma FitsConcat(p: Pattern, q: Pattern, vs: seq<nat>, ws: seq<nat>)
    requires Fits(p, vs) && Fits(q, ws)
    ensures Fits(p + q, vs + ws)
  {
    forall i | 0 <= i < |p + q| ensures TokenFits((p + q)[i], (vs + ws)[i]) {
      if i < |p| {
        assert (p + q)[i] == p[i] && (vs + ws)[i] == vs[i];
      } else {
        assert (p + q)[i] == q[i - |p|] && (vs + ws)[i] == ws[i - |p|];
      }
    }
  }

  lemma FitsTail(p: Pattern, vs: seq<nat>)
    requires p != [] && Fits(p, vs)
    ensures TokenFits(p[0], vs[0]) && Fits(p[1..], vs[1..])
  {
    forall i | 0 <= i < |p[1..]| ensures TokenFits(p[1..][i], vs[1..][i]) {
      assert p[1..][i] == p[i + 1] && vs[1..][i] == vs[i + 1];
    }
  }

  /** The file stem of a timestamp starts with its folder name, so a moved
      file's name repeats the name of the folder it is moved into. */
  lemma StemStartsWithFolderName(t: Timestamp)
    requires IsValid(t)
    ensures |FolderName(t)| == 10 && |FileStem(t)| == 15
    ensures FileStem(t) == FolderName(t) + FileStem(t)[10..]
  {
    var tail: Pattern := [Literal(' '), Digits(2), Digits(2)];
    assert StemPattern == FolderPattern + tail;
    assert StemValues(t) == FolderValues(t) + [0, t.hour, t.minute];
    NamesFit(t);
    RenderConcat(FolderPattern, tail, FolderValues(t), [0, t.hour, t.minute]);
  }

  /** Two valid timestamps share a folder exactly when they fall on the same day. */
  lemma FolderNameIsDate(t: Timestamp, u: Timestamp)
    requires IsValid(t) && IsValid(u)
    ensures FolderName(t) == FolderName(u) <==> (t.year, t.month, t.day) == (u.year, u.month, u.day)
  {
    if FolderName(t) == FolderName(u) {
      NamesFit(t);
      NamesFit(u);
      RenderInjective(FolderPattern, FolderValues(t), FolderValues(u));
      assert FolderValues(t)[0] == FolderValues(u)[0] && FolderValues(t)[2] == FolderValues(u)[2];
      assert FolderValues(t)[4] == FolderValues(u)[4];
    }
  }

  /** Two valid timestamps share a file stem exactly when they fall in the
      same minute; the seconds are not part of the name. */
  lemma FileStemIsMinute(t: Timestamp, u: Timestamp)
    requires IsValid(t) && IsValid(u)
    ensures FileStem(t) == FileStem(u) <==>
            (t.year, t.month, t.day, t.hour, t.minute) == (u.year, u.month, u.day, u.hour, u.minute)
  {
    if FileStem(t) == FileStem(u) {
      NamesFit(t);
      NamesFit(u);
      RenderInjective(StemPattern, StemValues(t), StemValues(u));
      assert StemValues(t)[0] == StemValues(u)[0] && StemValues(t)[2] == StemValues(u)[2];
      assert StemValues(t)[4] == StemValues(u)[4] && StemValues(t)[6] == StemValues(u)[6];
      assert StemValues(t)[7] == StemValues(u)[7];
    }
  }

  /** The folder and stem fields of a valid timestamp fit their patterns. */
  lemma NamesFit(t: Timestamp)
    requires IsValid(t)
    ensures Fits(FolderPattern, FolderValues(t)) && Fits(StemPattern, StemValues(t))
  {
  }

  /** The fields of a valid timestamp fit the two tag patterns. */
  lemma TagFieldsFit(t: Timestamp, weekday: nat)
    requires IsValid(t) && weekday < 7
    ensures Fits(OriginalPattern, OriginalValues(t)) && Fits(CreatedPattern, CreatedValues(t, weekday))
  {
  }

  /** Different values fitting a pattern render differently. */
  lemma RenderInjective(p: Pattern, vs: seq<nat>, ws: seq<nat>)
    requires Fits(p, vs) && Fits(p, ws) && Render(p, vs) == Render(p, ws)
    ensures vs == ws
  {
    ParseRendered(p, vs);
    ParseRendered(p, ws);
  }
}
