/** Printing with formattm and reading back with strptime (fflib/base/time_tool.h:42-52 and 304-309). */
module TimeText {
  import opened Options
  import opened Numerals
  import opened TimeTool
  import opened TimeLaws

  // --------------------------------------------------------------- printing

  /** %02d. */
  function Print02(n: int): (r: string)
    ensures 0 <= n <= 99 ==> |r| == 2 && AllDigits(r) && Value(r) == n
  {
    if 0 <= n <= 9 then
      var r := "0" + Decimal(n);
      DecimalLength(n);
      assert r[..1] == "0" && r[..1][..0] == "";
      r
    else
      TwoDigits(n);
      PrintInt(n)
  }

  lemma DecimalLength(n: nat)
    requires n <= 9
    ensures |Decimal(n)| == 1
  {
  }

  lemma TwoDigits(n: int)
    ensures 10 <= n <= 99 ==> |PrintInt(n)| == 2
  {
    if 10 <= n <= 99 {
      DecimalLength(n / 10);
    }
  }

  /** A separator and a number, and the conversion that is to read the number. */
  datatype Part = Part(sep: char, spec: NumSpec, n: int)

  predicate PartOk(p: Part) {
    p.sep in {'-', ' ', ':'} && 0 <= p.n <= 99 && Accepted(p.spec, p.n)
  }

  predicate PartsOk(ps: seq<Part>) {
    forall i :: 0 <= i < |ps| ==> PartOk(ps[i])
  }

  function Text(ps: seq<Part>): string {
    if ps == [] then "" else [ps[0].sep] + Print02(ps[0].n) + Text(ps[1..])
  }

  function SeparatorToken(c: char): Token {
    if IsSpace(c) then Blank else Plain(c)
  }

  /** The format for the parts: a separator and a conversion each. */
  function Pattern(ps: seq<Part>): seq<Token> {
    if ps == [] then [] else [SeparatorToken(ps[0].sep)] + ([Conv(Num(ps[0].spec))] + Pattern(ps[1..]))
  }

  function TailParts(tm: Tm): seq<Part> {
    [Part('-', MONTH, tm.mon + 1), Part('-', DAY, tm.mday), Part(' ', HOUR, tm.hour), Part(':', MINUTE, tm.min), Part(':', SECOND, tm.sec)]
  }

  lemma {:induction false} TextHasNoNul(ps: seq<Part>)
    requires forall i :: 0 <= i < |ps| ==> ps[i].sep != '\0'
    ensures '\0' !in Text(ps)
  {
    if ps != [] {
      PrintedHasNoNul(ps[0].n);
      TextHasNoNul(ps[1..]);
    }
  }

  lemma PrintedHasNoNul(n: int)
    ensures '\0' !in PrintInt(n) && '\0' !in Print02(n)
  {
    assert n >= 0 ==> AllDigits(Decimal(n));
    assert n < 0 ==> AllDigits(Decimal(-n));
  }

  /** formattm, on what localtime gave: "%d-%02d-%02d %02d:%02d:%02d". */
  function FormatTm(tm: Tm): CString {
    PrintedHasNoNul(tm.year + 1900);
    TextHasNoNul(TailParts(tm));
    PrintInt(tm.year + 1900) + Text(TailParts(tm))
  }

  lemma TextStep(ps: seq<Part>, i: nat)
    requires i < |ps|
    ensures Text(ps[i..]) == [ps[i].sep] + Print02(ps[i].n) + Text(ps[i + 1..])
  {
    assert ps[i..][1..] == ps[i + 1..];
  }

  lemma TextOfFive(ps: seq<Part>)
    requires |ps| == 5
    ensures Text(ps) ==
            [ps[0].sep] + Print02(ps[0].n) + ([ps[1].sep] + Print02(ps[1].n) + ([ps[2].sep] + Print02(ps[2].n) +
            ([ps[3].sep] + Print02(ps[3].n) + ([ps[4].sep] + Print02(ps[4].n) + ""))))
  {
    assert ps[0..] == ps && ps[5..] == [];
    TextStep(ps, 0);
    TextStep(ps, 1);
    TextStep(ps, 2);
    TextStep(ps, 3);
    TextStep(ps, 4);
  }

  lemma TailIs(tm: Tm)
    ensures Text(TailParts(tm)) ==
            ['-'] + Print02(tm.mon + 1) + (['-'] + Print02(tm.mday) + ([' '] + Print02(tm.hour) +
            ([':'] + Print02(tm.min) + ([':'] + Print02(tm.sec) + ""))))
  {
    TextOfFive(TailParts(tm));
  }

  lemma YearAndTail(tm: Tm)
    ensures FormatTm(tm) == PrintInt(tm.year + 1900) + Text(TailParts(tm))
  {
  }

  /** The text in full: the year, then a separator and two digits each. */
  lemma FormatTmIs(tm: Tm)
    ensures FormatTm(tm) == PrintInt(tm.year + 1900) +
            (['-'] + Print02(tm.mon + 1) + (['-'] + Print02(tm.mday) + ([' '] + Print02(tm.hour) +
            ([':'] + Print02(tm.min) + ([':'] + Print02(tm.sec) + "")))))
  {
    TailIs(tm);
    YearAndTail(tm);
  }

  // ---------------------------------------------------------------- reading

  lemma AllDigitsTail(d: string)
    requires d != "" && AllDigits(d)
    ensures AllDigits(d[1..])
  {
  }

  lemma {:induction false} DigitsEndAt(s: CString, i: nat, e: nat)
    requires i <= e <= |s| && AllDigits(s[i..e]) && !IsDigit(At(s, e))
    ensures DigitsEnd(s, i) == e
    decreases e - i
  {
    if i < e {
      assert s[i] == s[i..e][0];
      AllDigitsTail(s[i..e]);
      assert s[i..e][1..] == s[i + 1..e];
      DigitsEndAt(s, i + 1, e);
    }
  }

  lemma NoSpace(s: CString, i: nat)
    requires i < |s| && !IsSpace(s[i])
    ensures SkipSpace(s, i) == i
  {
  }

  /** Digits that end at e, after a sign or none. */
  lemma ReadsFrom(s: CString, i: nat, b: nat, e: nat)
    requires i <= b < e <= |s| && SkipSpace(s, i) == i && AfterSign(s, i) == b
    requires AllDigits(s[b..e]) && !IsDigit(At(s, e))
    ensures Strtoul(s, i) == (Unsigned(Value(s[b..e]), At(s, i) == '-'), e)
  {
    DigitsEndAt(s, b, e);
  }

  /** Plain digits are read as their value. */
  lemma ReadsDigits(s: CString, i: nat, d: string)
    requires d != "" && AllDigits(d) && Value(d) < ULONG && i + |d| <= |s|
    requires s[i..i + |d|] == d && !IsDigit(At(s, i + |d|))
    ensures Strtoul(s, i) == (Value(d), i + |d|)
  {
    assert s[i] == d[0] && IsDigit(s[i]);
    NoSpace(s, i);
    ReadsFrom(s, i, i, i + |d|);
  }

  lemma MinusAt(s: CString, i: nat)
    requires i < |s| && s[i] == '-'
    ensures SkipSpace(s, i) == i && AfterSign(s, i) == i + 1 && At(s, i) == '-'
  {
  }

  /** A minus sign wraps around. */
  lemma ReadsNegative(s: CString, i: nat, d: string)
    requires d != "" && AllDigits(d) && 0 < Value(d) < ULONG && i + 1 + |d| <= |s|
    requires s[i] == '-' && s[i + 1..i + 1 + |d|] == d && !IsDigit(At(s, i + 1 + |d|))
    ensures Strtoul(s, i) == (ULONG - Value(d), i + 1 + |d|)
  {
    MinusAt(s, i);
    ReadsFrom(s, i, i + 1, i + 1 + |d|);
  }

  /** What localtime promises about the five fields that are printed with two digits. */
  predicate ValidTm(tm: Tm) {
    0 <= tm.mon <= 11 && 1 <= tm.mday <= 31 && 0 <= tm.hour <= 23 && 0 <= tm.min <= 59 && 0 <= tm.sec <= 60
  }

  /** From p on the text is d after a separator, and then the rest. */
  lemma PartLayout(s: CString, p: nat, sep: char, d: string, rest: string)
    requires p < |s| && s[p..] == [sep] + d + rest && |d| == 2 && AllDigits(d) && (rest == "" || !IsDigit(rest[0]))
    ensures p + 3 <= |s| && s[p] == sep && s[p + 1..p + 3] == d && s[p + 3..] == rest
    ensures IsDigit(s[p + 1]) && !IsDigit(At(s, p + 3))
  {
    assert s[p] == s[p..][0] && s[p + 1] == s[p..][1] == d[0];
    assert s[p + 1..p + 3] == s[p..][1..3];
    assert s[p + 3..] == s[p..][3..];
    if rest != "" {
      assert s[p + 3] == rest[0];
    }
  }

  lemma SeparatorRead(sep: char, s: CString, st: State)
    requires sep in {'-', ' ', ':'} && st.ok && st.pos + 1 < |s| && s[st.pos] == sep && IsDigit(s[st.pos + 1])
    ensures Turn(SeparatorToken(sep), s, st) == st.(pos := st.pos + 1)
  {
    NoSpace(s, st.pos + 1);
  }

  lemma NumberRead(spec: NumSpec, s: CString, st: State, n: int)
    requires Accepted(spec, n) && 0 <= n <= 99 && st.ok && st.pos + 2 <= |s|
    requires s[st.pos..st.pos + 2] == Print02(n) && !IsDigit(At(s, st.pos + 2))
    ensures Number(spec, s, st) == State(st.pos + 2, Put(st.tm, spec.field, Stored(spec, n)), true)
  {
    ReadsDigits(s, st.pos, Print02(n));
    assert Value(Print02(n)) == n;
  }

  lemma PartTurn(sep: char, spec: NumSpec, ts: seq<Token>, s: CString, st: State)
    requires st.ok && st.pos + 1 < |s| && Turn(SeparatorToken(sep), s, st) == st.(pos := st.pos + 1)
    ensures Run([SeparatorToken(sep)] + ([Conv(Num(spec))] + ts), s, st) == Run(ts, s, Number(spec, s, st.(pos := st.pos + 1)))
  {
    RunOne(SeparatorToken(sep), [Conv(Num(spec))] + ts, s, st);
    RunOne(Conv(Num(spec)), ts, s, st.(pos := st.pos + 1));
  }

  function AfterPart(p: Part, st: State): State {
    State(st.pos + 3, Put(st.tm, p.spec.field, Stored(p.spec, p.n)), true)
  }

  function AfterParts(ps: seq<Part>, st: State): State {
    if ps == [] then st else AfterParts(ps[1..], AfterPart(ps[0], st))
  }

  lemma PartNumber(p: Part, s: CString, st: State)
    requires PartOk(p) && st.ok && st.pos + 3 <= |s|
    requires s[st.pos + 1..st.pos + 3] == Print02(p.n) && !IsDigit(At(s, st.pos + 3))
    ensures Number(p.spec, s, st.(pos := st.pos + 1)) == AfterPart(p, st)
  {
    NumberRead(p.spec, s, st.(pos := st.pos + 1), p.n);
  }

  lemma ReadsAt(p: Part, ts: seq<Token>, s: CString, st: State)
    requires PartOk(p) && st.ok && st.pos + 3 <= |s|
    requires s[st.pos] == p.sep && s[st.pos + 1..st.pos + 3] == Print02(p.n)
    requires IsDigit(s[st.pos + 1]) && !IsDigit(At(s, st.pos + 3))
    ensures Run([SeparatorToken(p.sep)] + ([Conv(Num(p.spec))] + ts), s, st) == Run(ts, s, AfterPart(p, st))
  {
    SeparatorRead(p.sep, s, st);
    PartNumber(p, s, st);
    PartTurn(p.sep, p.spec, ts, s, st);
  }

  /** A conversion reads the part it is written for, and puts the number back. */
  lemma ReadsPart(p: Part, ts: seq<Token>, s: CString, st: State, rest: string)
    requires PartOk(p) && st.ok && st.pos < |s|
    requires s[st.pos..] == [p.sep] + Print02(p.n) + rest && (rest == "" || !IsDigit(rest[0]))
    ensures st.pos + 3 <= |s| && s[st.pos + 3..] == rest
    ensures Run([SeparatorToken(p.sep)] + ([Conv(Num(p.spec))] + ts), s, st) == Run(ts, s, AfterPart(p, st))
  {
    PartLayout(s, st.pos, p.sep, Print02(p.n), rest);
    ReadsAt(p, ts, s, st);
  }

  lemma TextStarts(ps: seq<Part>)
    requires PartsOk(ps) && ps != []
    ensures Text(ps) != "" && !IsDigit(Text(ps)[0])
  {
    assert PartOk(ps[0]);
  }

  /** Any pattern of separators and two-digit numbers reads back the text printed for it. */
  lemma {:induction false} ReadsParts(ps: seq<Part>, s: CString, st: State)
    requires PartsOk(ps) && st.ok && st.pos <= |s| && s[st.pos..] == Text(ps)
    ensures Run(Pattern(ps), s, st) == AfterParts(ps, st) && AfterParts(ps, st).pos == |s|
  {
    if ps == [] {
      assert |s[st.pos..]| == 0;
    } else {
      var rest := Text(ps[1..]);
      if ps[1..] != [] {
        TextStarts(ps[1..]);
      }
      TextStarts(ps);
      assert PartOk(ps[0]);
      ReadsPart(ps[0], Pattern(ps[1..]), s, st, rest);
      ReadsParts(ps[1..], s, AfterPart(ps[0], st));
    }
  }

  lemma TailPartsOk(tm: Tm)
    requires ValidTm(tm)
    ensures PartsOk(TailParts(tm))
  {
  }

  lemma AfterStep(ps: seq<Part>, i: nat, st: State)
    requires i < |ps|
    ensures AfterParts(ps[i..], st) == AfterParts(ps[i + 1..], AfterPart(ps[i], st))
  {
    assert ps[i..][1..] == ps[i + 1..];
  }

  lemma AfterTail(src: Tm, st: State)
    requires st.ok
    ensures AfterParts(TailParts(src), st) ==
            State(st.pos + 15, st.tm.(mon := src.mon, mday := src.mday, hour := src.hour, min := src.min, sec := src.sec), true)
  {
    var ps := TailParts(src);
    var a := AfterPart(ps[0], st);
    var b := AfterPart(ps[1], a);
    var c := AfterPart(ps[2], b);
    var d := AfterPart(ps[3], c);
    assert ps[0..] == ps && ps[5..] == [];
    AfterStep(ps, 0, st);
    AfterStep(ps, 1, a);
    AfterStep(ps, 2, b);
    AfterStep(ps, 3, c);
    AfterStep(ps, 4, d);
  }

  // ------------------------------------------------------------- round trip

  predicate Int32(n: int) {
    -0x8000_0000 <= n < 0x8000_0000
  }

  /** What strptime reads for the year: a negative one wraps to something far too large. */
  lemma ReadsYear(s: CString, y: int, tail: string)
    requires Int32(y) && s == PrintInt(y) + tail && tail != "" && !IsDigit(tail[0])
    ensures Strtoul(s, 0) == (if y < 0 then ULONG + y else y, |PrintInt(y)|)
  {
    var p := PrintInt(y);
    assert s[|p|] == tail[0];
    if y < 0 {
      var d := Decimal(-y);
      assert s[0] == '-' && s[1..1 + |d|] == d;
      ReadsNegative(s, 0, d);
    } else {
      assert s[0..|p|] == p;
      ReadsDigits(s, 0, p);
    }
  }

  lemma YearNumber(s: CString, tm: Tm, y: int, tail: string)
    requires Int32(y) && s == PrintInt(y) + tail && tail != "" && !IsDigit(tail[0])
    ensures Number(YEAR, s, State(0, tm, true)) ==
            if 1900 <= y <= 65535 then State(|PrintInt(y)|, tm.(year := y - 1900), true) else State(0, tm, false)
  {
    ReadsYear(s, y, tail);
    assert Accepted(YEAR, if y < 0 then ULONG + y else y) <==> 1900 <= y <= 65535;
  }

  /** The year is read first; a year out of range ends the call. */
  lemma YearTurn(s: CString, ts: seq<Token>, tm: Tm, y: int, tail: string)
    requires Int32(y) && s == PrintInt(y) + tail && tail != "" && !IsDigit(tail[0])
    ensures Run([Conv(Num(YEAR))] + ts, s, State(0, tm, true)) ==
            if 1900 <= y <= 65535 then Run(ts, s, State(|PrintInt(y)|, tm.(year := y - 1900), true)) else State(0, tm, false)
  {
    YearNumber(s, tm, y, tail);
    RunOne(Conv(Num(YEAR)), ts, s, State(0, tm, true));
    RunStuck(ts, s, State(0, tm, false));
  }

  lemma ReadsYearFirst(src: Tm, ts: seq<Token>, tm: Tm)
    requires ValidTm(src) && Int32(src.year + 1900)
    ensures var y := src.year + 1900;
            Run([Conv(Num(YEAR))] + ts, FormatTm(src), State(0, tm, true)) ==
            if 1900 <= y <= 65535 then Run(ts, FormatTm(src), State(|PrintInt(y)|, tm.(year := src.year), true))
            else State(0, tm, false)
  {
    TailPartsOk(src);
    TextStarts(TailParts(src));
    YearTurn(FormatTm(src), ts, tm, src.year + 1900, Text(TailParts(src)));
  }

  /** All six fields come back, and the whole text is read, exactly for the years 1900 to 65535. */
  lemma DateRoundTripIff(src: Tm, tm: Tm)
    requires ValidTm(src) && Int32(src.year + 1900)
    ensures var r := Run(Tokens(FormatText()), FormatTm(src), State(0, tm, true));
            && (r.ok <==> 1900 <= src.year + 1900 <= 65535)
            && (r.ok ==> r.pos == |FormatTm(src)| && r.tm == src.(wday := tm.wday, yday := tm.yday))
            && (!r.ok ==> r.tm == tm)
  {
    FormatTokens(src);
    RoundTripOf(src, tm);
  }

  lemma RoundTripOf(src: Tm, tm: Tm)
    requires ValidTm(src) && Int32(src.year + 1900)
    ensures var r := Run([Conv(Num(YEAR))] + Pattern(TailParts(src)), FormatTm(src), State(0, tm, true));
            && (r.ok <==> 1900 <= src.year + 1900 <= 65535)
            && (r.ok ==> r.pos == |FormatTm(src)| && r.tm == src.(wday := tm.wday, yday := tm.yday))
            && (!r.ok ==> r.tm == tm)
  {
    TailPartsOk(src);
    var ps := TailParts(src);
    ReadsYearFirst(src, Pattern(ps), tm);
    if 1900 <= src.year + 1900 <= 65535 {
      var st := State(|PrintInt(src.year + 1900)|, tm.(year := src.year), true);
      assert FormatTm(src)[st.pos..] == Text(ps);
      ReadsParts(ps, FormatTm(src), st);
      AfterTail(src, st);
    }
  }

  // ------------------------------------------------------------- the format

  /** The format text for separators and conversion characters. */
  function Spelled(seps: string, cs: string): CString
    requires |seps| == |cs| && '\0' !in seps && '\0' !in cs
  {
    if cs == "" then "" else [seps[0]] + (['%', cs[0]] + Spelled(seps[1..], cs[1..]))
  }

  predicate Matches(ps: seq<Part>, seps: string, cs: string) {
    && |ps| == |seps| == |cs| && '\0' !in cs && '\0' !in seps
    && forall i :: 0 <= i < |ps| ==>
      ps[i].sep == seps[i] && seps[i] in {'-', ' ', ':'} && ConversionOf(cs[i]) == Num(ps[i].spec)
  }

  lemma SeparatorThenConversion(sep: char, c: char, rest: CString)
    requires sep in {'-', ' ', ':'} && c != '\0'
    ensures Tokens([sep] + (['%', c] + rest)) == [SeparatorToken(sep)] + ([Conv(ConversionOf(c))] + Tokens(rest))
  {
    TokensOfConversion(c, rest);
    TokensStep([sep] + (['%', c] + rest), [sep], ['%', c] + rest);
  }

  lemma {:induction false} SpelledIsPattern(ps: seq<Part>, seps: string, cs: string)
    requires Matches(ps, seps, cs)
    ensures Tokens(Spelled(seps, cs)) == Pattern(ps)
    decreases |ps|
  {
    if ps != [] {
      SpelledIsPattern(ps[1..], seps[1..], cs[1..]);
      SeparatorThenConversion(seps[0], cs[0], Spelled(seps[1..], cs[1..]));
    }
  }

  /** The format str2time reads. */
  function FormatText(): CString {
    ['%', 'Y'] + Spelled("-- ::", "mdHMS")
  }

  lemma SpelledStep(seps: string, cs: string, i: nat)
    requires |seps| == |cs| && '\0' !in seps && '\0' !in cs && i < |cs|
    ensures Spelled(seps[i..], cs[i..]) == [seps[i]] + (['%', cs[i]] + Spelled(seps[i + 1..], cs[i + 1..]))
  {
    assert seps[i..][1..] == seps[i + 1..] && cs[i..][1..] == cs[i + 1..];
  }

  lemma SpelledLast(seps: string, cs: string)
    requires |seps| == |cs| == 5 && '\0' !in seps && '\0' !in cs
    ensures Spelled(seps[3..], cs[3..]) == [seps[3], '%', cs[3], seps[4], '%', cs[4]]
  {
    assert seps[5..] == cs[5..] == "";
    SpelledStep(seps, cs, 3);
    SpelledStep(seps, cs, 4);
  }

  lemma SpelledFive(seps: string, cs: string)
    requires |seps| == |cs| == 5 && '\0' !in seps && '\0' !in cs
    ensures Spelled(seps, cs) ==
            [seps[0], '%', cs[0], seps[1], '%', cs[1], seps[2], '%', cs[2]] + [seps[3], '%', cs[3], seps[4], '%', cs[4]]
  {
    assert seps[0..] == seps && cs[0..] == cs;
    SpelledStep(seps, cs, 0);
    SpelledStep(seps, cs, 1);
    SpelledStep(seps, cs, 2);
    SpelledLast(seps, cs);
  }

  lemma FormatTextIs()
    ensures FormatText() == "%Y-%m-%d %H:%M:%S"
  {
    SpelledFive("-- ::", "mdHMS");
  }

  lemma TailMatches(src: Tm)
    ensures Matches(TailParts(src), "-- ::", "mdHMS")
  {
    var ps := TailParts(src);
    assert ConversionOf('m') == Num(ps[0].spec) && ConversionOf('d') == Num(ps[1].spec);
    assert ConversionOf('H') == Num(ps[2].spec) && ConversionOf('M') == Num(ps[3].spec) && ConversionOf('S') == Num(ps[4].spec);
  }

  lemma YearThenPattern(ps: seq<Part>, seps: string, cs: string)
    requires Matches(ps, seps, cs)
    ensures Tokens(['%', 'Y'] + Spelled(seps, cs)) == [Conv(Num(YEAR))] + Pattern(ps)
  {
    SpelledIsPattern(ps, seps, cs);
    TokensOfConversion('Y', Spelled(seps, cs));
  }

  lemma FormatTokens(src: Tm)
    ensures Tokens(FormatText()) == [Conv(Num(YEAR))] + Pattern(TailParts(src))
  {
    TailMatches(src);
    YearThenPattern(TailParts(src), "-- ::", "mdHMS");
  }

  // ----------------------------------------------------- a loose compound conversion

  lemma ReadsTwelve()
    ensures Strtoul("12-30", 0) == (12, 2)
  {
    assert "12"[..1] == "1" && "1"[..0] == "";
    assert Value("1") == 1 && Value("12") == 12;
    ReadsDigits("12-30", 0, "12");
  }

  /** "12-30": %R takes the hour and is content, "%H:%M" fails at the missing colon. */
  lemma LooseHourMinute(tm: Tm)
    ensures ConversionOf('R').Compound? && Spell("HM", ':') == "%H:%M"
    ensures Outcome(Convert(ConversionOf('R'), "12-30", State(0, tm, true))) == (Some(2), tm.(hour := 12))
    ensures !Run(Tokens(Spell("HM", ':')), "12-30", State(0, tm, true)).ok
  {
    ReadsTwelve();
    HourMinuteTokens();
    var s: CString := "12-30";
    var st := State(0, tm, true);
    assert Number(HOUR, s, st) == State(2, tm.(hour := 12), true);
    FirstNumber([HOUR, MINUTE], ':', s, st);
    ThenSeparator(Expand([MINUTE], ':'), ':', s, State(2, tm.(hour := 12), true));
    assert [HOUR, MINUTE][1..] == [MINUTE];
  }
}
