/** What strptime keeps, and when its compound conversions are their expansions. */
module TimeLaws {
  import opened Options
  import opened TimeTool

  // ----------------------------------------------------------------- ranges

  function Least(f: Field, ok: bool): int {
    if f == Mday then 1 else if ok then 0 else if f in {Mon, Wday} then -1 else 0
  }

  function Most(f: Field): int {
    match f
    case Sec => 60
    case Min => 59
    case Hour => 23
    case Mday => 31
    case Mon => 11
    case Year => 65535 - 1900
    case Wday => 6
    case Yday => 365
  }

  /** Every field in range; a month or week day that did not match is -1, and only after a failure. */
  predicate InRange(tm: Tm, ok: bool) {
    forall f :: Least(f, ok) <= Get(tm, f) <= Most(f)
  }

  lemma PutInRange(tm: Tm, f: Field, v: int, ok: bool)
    requires InRange(tm, true) && Least(f, ok) <= v <= Most(f)
    ensures InRange(Put(tm, f, v), ok)
  {
    forall g ensures Least(g, ok) <= Get(Put(tm, f, v), g) <= Most(g) {
      assert Least(g, true) <= Get(tm, g) <= Most(g);
    }
  }

  /** The numbers of a conversion stay in the range of its field. */
  ghost predicate Fits(n: NumSpec) {
    forall num :: Accepted(n, num) ==> Least(n.field, true) <= Stored(n, num) <= Most(n.field)
  }

  ghost predicate AllFit(ns: seq<NumSpec>) {
    forall i :: 0 <= i < |ns| ==> Fits(ns[i])
  }

  lemma NumberKeepsRange(n: NumSpec, s: CString, st: State)
    requires Fits(n) && st.pos <= |s| && InRange(st.tm, true)
    ensures InRange(Number(n, s, st).tm, true)
  {
    var num := Strtoul(s, st.pos).0;
    if Accepted(n, num) {
      PutInRange(st.tm, n.field, Stored(n, num), true);
    }
  }

  lemma {:induction false} ChainKeepsRange(ns: seq<NumSpec>, sep: char, s: CString, st: State)
    requires st.pos <= |s| && AllFit(ns) && InRange(st.tm, true)
    ensures InRange(Chain(ns, sep, s, st).tm, true)
    decreases |ns|
  {
    if ns != [] {
      var n := Number(ns[0], s, st);
      NumberKeepsRange(ns[0], s, st);
      if n.ok && |ns| > 1 && n.pos < |s| && s[n.pos] == sep {
        ChainKeepsRange(ns[1..], sep, s, n.(pos := n.pos + 1));
      }
    }
  }

  lemma AmPmKeepsRange(s: CString, st: State, advance: nat)
    requires st.pos <= |s| && InRange(st.tm, true)
    ensures InRange(AmPm(s, st, advance).tm, true)
  {
    var h := Get(st.tm, Hour);
    assert 0 <= h <= Most(Hour);
    if h == 12 {
      PutInRange(st.tm, Hour, 0, true);
    }
    if h < 12 {
      PutInRange(st.tm, Hour, h + 12, true);
    }
  }

  lemma ClockKeepsRange(s: CString, st: State)
    requires st.pos <= |s| && InRange(st.tm, true)
    ensures InRange(TwelveHours(s, st).tm, true)
  {
    var h := Number(HOUR12, s, st);
    NumberKeepsRange(HOUR12, s, st);
    if h.ok && At(s, h.pos) == ':' {
      MinutesKeepRange(s, h.(pos := h.pos + 1));
    }
  }

  lemma MinutesKeepRange(s: CString, st: State)
    requires st.pos <= |s| && InRange(st.tm, true)
    ensures InRange(MinutesOn(s, st).tm, true)
  {
    var m := Number(MINUTE, s, st);
    NumberKeepsRange(MINUTE, s, st);
    if m.ok && At(s, m.pos) == ':' {
      SecondsKeepRange(s, m.(pos := m.pos + 1));
    }
  }

  lemma SecondsKeepRange(s: CString, st: State)
    requires st.pos <= |s| && InRange(st.tm, true)
    ensures InRange(SecondsAmPm(s, st).tm, true)
  {
    var c := Number(SECOND, s, st);
    NumberKeepsRange(SECOND, s, st);
    if c.ok && IsSpace(At(s, c.pos)) {
      AmPmKeepsRange(s, c.(pos := SkipSpace(s, c.pos)), 0);
    }
  }

  lemma NameKeepsRange(names: seq<string>, f: Field, s: CString, st: State)
    requires Names(names) && f in {Mon, Wday} && |names| == Most(f) + 1 && st.pos <= |s| && st.ok && InRange(st.tm, true)
    ensures var r := Name(names, f, s, st); InRange(r.tm, r.ok)
  {
    var i := NameAt(names, s, st.pos, 0).0;
    PutInRange(st.tm, f, i, i >= 0);
  }

  ghost predicate KindFits(k: Conversion) {
    && (k.Num? ==> Fits(k.n))
    && (k.Compound? ==> AllFit(k.ns))
  }

  /** Every conversion character there is. */
  lemma ConversionsFit(c: char)
    ensures KindFits(ConversionOf(c))
  {
  }

  lemma ConvertKeepsRange(k: Conversion, s: CString, st: State)
    requires st.pos < |s| && st.ok && KindFits(k) && InRange(st.tm, true)
    ensures var r := Convert(k, s, st); InRange(r.tm, r.ok)
  {
    match k
    case Num(n) => NumberKeepsRange(n, s, st); RangeAfterFailure(Convert(k, s, st).tm);
    case DayName => NameKeepsRange(WEEKDAYS, Wday, s, st);
    case MonthName => NameKeepsRange(MONTHS, Mon, s, st);
    case Compound(ns, sep) => ChainKeepsRange(ns, sep, s, st); RangeAfterFailure(Chain(ns, sep, s, st).tm);
    case Meridiem => AmPmKeepsRange(s, st, 2); RangeAfterFailure(AmPm(s, st, 2).tm);
    case Clock12 => ClockKeepsRange(s, st); RangeAfterFailure(TwelveHours(s, st).tm);
    case _ => RangeAfterFailure(st.tm);
  }

  lemma RangeAfterFailure(tm: Tm)
    requires InRange(tm, true)
    ensures InRange(tm, false)
  {
    forall f ensures Least(f, false) <= Get(tm, f) <= Most(f) {
      assert Least(f, true) <= Get(tm, f) <= Most(f);
    }
  }

  ghost predicate TokensFit(ts: seq<Token>) {
    forall i :: 0 <= i < |ts| && ts[i].Conv? ==> KindFits(ts[i].k)
  }

  lemma {:induction false} FormatsFit(fmt: CString)
    ensures TokensFit(Tokens(fmt))
    decreases |fmt|
  {
    if fmt != "" {
      FormatsFit(Drop(fmt, Width(fmt)));
      ConversionsFit(At(fmt, 1));
    }
  }

  lemma {:induction false} TokensKeepRange(ts: seq<Token>, s: CString, st: State)
    requires st.pos <= |s| && TokensFit(ts) && InRange(st.tm, st.ok)
    ensures var r := Run(ts, s, st); InRange(r.tm, r.ok)
  {
    if st.ok && ts != [] && st.pos < |s| {
      var n := Turn(ts[0], s, st);
      if ts[0].Conv? {
        ConvertKeepsRange(ts[0].k, s, st);
      } else {
        RangeAfterFailure(st.tm);
      }
      TokensKeepRange(ts[1..], s, n);
    }
  }

  /** For every format and text, from a time in range: a success leaves every field in range. */
  lemma StrpTimeKeepsRange(format: CString, s: CString, tm: Tm)
    requires InRange(tm, true)
    ensures var r := Run(Tokens(format), s, State(0, tm, true)); InRange(r.tm, r.ok)
  {
    FormatsFit(format);
    TokensKeepRange(Tokens(format), s, State(0, tm, true));
  }

  // ------------------------------------------------------------- expansions

  /** "%m/%d/%y" for month, day and year with '/'. */
  function Expand(ns: seq<NumSpec>, sep: char): seq<Token>
    requires ns != []
  {
    [Conv(Num(ns[0]))] + if |ns| > 1 then [Plain(sep)] + Expand(ns[1..], sep) else []
  }

  /** What a reader of the text and the time can check: where the compound form and its expansion agree. */
  predicate Agrees(ns: seq<NumSpec>, sep: char, s: CString, st: State)
    requires ns != [] && st.pos < |s|
    decreases |ns|
  {
    var n := Number(ns[0], s, st);
    if !n.ok || |ns| == 1 || n.pos == |s| then true
    else if s[n.pos] != sep then false
    else if n.pos + 1 == |s| then AlreadyThere(ns[1], n.tm)
    else Agrees(ns[1..], sep, s, n.(pos := n.pos + 1))
  }

  /** After a last separator the compound form reads an empty number, which counts as 0. */
  predicate AlreadyThere(n: NumSpec, tm: Tm) {
    n.low == 0 && Get(tm, n.field) == Stored(n, 0)
  }

  /** The value of a call: the end of the match, or nothing, and the fields. */
  function Outcome(st: State): (Option<nat>, Tm) {
    (if st.ok then Some(st.pos) else None, st.tm)
  }

  lemma EmptyNumber(n: NumSpec, s: CString, st: State)
    requires st.pos == |s| && st.ok
    ensures Number(n, s, st).pos == st.pos
    ensures Number(n, s, st) == st <==> AlreadyThere(n, st.tm)
  {
    assert Strtoul(s, |s|) == (0, |s|);
  }

  lemma FirstNumber(ns: seq<NumSpec>, sep: char, s: CString, st: State)
    requires ns != [] && st.pos < |s| && st.ok
    ensures var n := Number(ns[0], s, st);
            && (|ns| == 1 ==> Run(Expand(ns, sep), s, st) == n)
            && (|ns| > 1 ==> Run(Expand(ns, sep), s, st) == Run([Plain(sep)] + Expand(ns[1..], sep), s, n))
  {
    assert Expand(ns, sep)[1..] == if |ns| > 1 then [Plain(sep)] + Expand(ns[1..], sep) else [];
  }

  lemma RunOne(t: Token, ts: seq<Token>, s: CString, n: State)
    requires n.pos <= |s|
    ensures Run([t] + ts, s, n) == if !n.ok || n.pos == |s| then n else Run(ts, s, Turn(t, s, n))
  {
    assert ([t] + ts)[1..] == ts;
  }

  lemma PlainTurn(c: char, s: CString, n: State)
    requires n.ok && n.pos < |s|
    ensures Turn(Plain(c), s, n) == if s[n.pos] == c then n.(pos := n.pos + 1) else n.(ok := false)
  {
  }

  lemma RunStuck(ts: seq<Token>, s: CString, st: State)
    requires !st.ok && st.pos <= |s|
    ensures Run(ts, s, st) == st
  {
  }

  lemma ThenSeparator(ts: seq<Token>, sep: char, s: CString, n: State)
    requires n.pos <= |s|
    ensures Run([Plain(sep)] + ts, s, n) ==
            if !n.ok || n.pos == |s| then n
            else if s[n.pos] == sep then Run(ts, s, n.(pos := n.pos + 1))
            else n.(ok := false)
  {
    RunOne(Plain(sep), ts, s, n);
    if n.ok && n.pos < |s| {
      PlainTurn(sep, s, n);
      RunStuck(ts, s, n.(ok := false));
    }
  }

  predicate Same(ns: seq<NumSpec>, sep: char, s: CString, st: State)
    requires ns != [] && st.pos <= |s|
  {
    Outcome(Chain(ns, sep, s, st)) == Outcome(Run(Expand(ns, sep), s, st))
  }

  /** The compound conversion and its expansion have the same outcome exactly where `Agrees` says. */
  lemma {:induction false} ChainIsExpansionIff(ns: seq<NumSpec>, sep: char, s: CString, st: State)
    requires ns != [] && st.pos < |s| && st.ok
    ensures Same(ns, sep, s, st) <==> Agrees(ns, sep, s, st)
    decreases |ns|
  {
    var n := Number(ns[0], s, st);
    FirstNumber(ns, sep, s, st);
    if |ns| > 1 {
      ThenSeparator(Expand(ns[1..], sep), sep, s, n);
      if n.ok && n.pos < |s| && s[n.pos] == sep {
        var n1 := n.(pos := n.pos + 1);
        if n1.pos == |s| {
          EmptyNumber(ns[1], s, n1);
          assert Chain(ns[1..], sep, s, n1) == Number(ns[1], s, n1);
        } else {
          ChainIsExpansionIff(ns[1..], sep, s, n1);
        }
      }
    }
  }

  /** %D, %R and %T against "%m/%d/%y", "%H:%M" and "%H:%M:%S". */
  lemma CompoundIsExpansionIff(k: Conversion, s: CString, st: State)
    requires k.Compound? && k.ns != [] && st.pos < |s| && st.ok
    ensures Outcome(Convert(k, s, st)) == Outcome(Run(Expand(k.ns, k.sep), s, st)) <==> Agrees(k.ns, k.sep, s, st)
  {
    ChainIsExpansionIff(k.ns, k.sep, s, st);
  }

  lemma TokensStep(fmt: CString, head: CString, rest: CString)
    requires head != "" && fmt == head + rest && Width(fmt) == |head|
    ensures Tokens(fmt) == [FirstToken(fmt)] + Tokens(rest)
  {
    assert Drop(fmt, |head|) == rest;
  }

  lemma TokensOfConversion(c: char, rest: CString)
    requires c != '\0'
    ensures Tokens(['%', c] + rest) == [Conv(ConversionOf(c))] + Tokens(rest)
  {
    TokensStep(['%', c] + rest, ['%', c], rest);
  }

  lemma TokensOfPlain(c: char, rest: CString)
    requires c !in {'\0', '%'} && !IsSpace(c)
    ensures Tokens([c] + rest) == [Plain(c)] + Tokens(rest)
  {
    TokensStep([c] + rest, [c], rest);
  }

  /** A format of conversions with a separator between them, and the numbers they stand for. */
  function Spell(cs: string, sep: char): CString
    requires sep != '\0' && '\0' !in cs
  {
    if cs == "" then "" else ['%', cs[0]] + if |cs| > 1 then [sep] + Spell(cs[1..], sep) else ""
  }

  predicate Spells(cs: string, ns: seq<NumSpec>) {
    |cs| == |ns| && forall i :: 0 <= i < |cs| ==> ConversionOf(cs[i]) == Num(ns[i])
  }

  lemma {:induction false} SpelledTokens(cs: string, ns: seq<NumSpec>, sep: char)
    requires Spells(cs, ns) && ns != [] && sep !in {'\0', '%'} && !IsSpace(sep) && '\0' !in cs
    ensures Tokens(Spell(cs, sep)) == Expand(ns, sep)
    decreases |cs|
  {
    assert ConversionOf(cs[0]) == Num(ns[0]);
    if |cs| == 1 {
      TokensOfConversion(cs[0], "");
    } else {
      SpelledTokens(cs[1..], ns[1..], sep);
      TokensOfPlain(sep, Spell(cs[1..], sep));
      TokensOfConversion(cs[0], [sep] + Spell(cs[1..], sep));
    }
  }

  lemma SpellThree(cs: string, sep: char)
    requires |cs| == 3 && sep != '\0' && '\0' !in cs
    ensures Spell(cs, sep) == ['%', cs[0], sep, '%', cs[1], sep, '%', cs[2]]
  {
    assert cs[1..][1..] == [cs[2]];
    assert Spell(cs[1..][1..], sep) == ['%', cs[2]];
  }

  lemma SpellTwo(cs: string, sep: char)
    requires |cs| == 2 && sep != '\0' && '\0' !in cs
    ensures Spell(cs, sep) == ['%', cs[0], sep, '%', cs[1]]
  {
    assert cs[1..] == [cs[1]];
    assert Spell(cs[1..], sep) == ['%', cs[1]];
  }

  lemma Spellings()
    ensures Spell("mdy", '/') == "%m/%d/%y" && Spell("HMS", ':') == "%H:%M:%S" && Spell("HM", ':') == "%H:%M"
  {
    SpellThree("mdy", '/');
    SpellThree("HMS", ':');
    SpellTwo("HM", ':');
  }

  lemma DateTokens()
    ensures Spell("mdy", '/') == "%m/%d/%y"
    ensures ConversionOf('D').Compound? && Tokens(Spell("mdy", '/')) == Expand(ConversionOf('D').ns, ConversionOf('D').sep)
  {
    Spellings();
    SpelledTokens("mdy", [MONTH, DAY, YEAR2], '/');
  }

  lemma TimeTokens()
    ensures Spell("HMS", ':') == "%H:%M:%S"
    ensures ConversionOf('T').Compound? && Tokens(Spell("HMS", ':')) == Expand(ConversionOf('T').ns, ConversionOf('T').sep)
  {
    Spellings();
    SpelledTokens("HMS", [HOUR, MINUTE, SECOND], ':');
  }

  lemma HourMinuteTokens()
    ensures Spell("HM", ':') == "%H:%M"
    ensures ConversionOf('R').Compound? && Tokens(Spell("HM", ':')) == Expand(ConversionOf('R').ns, ConversionOf('R').sep)
  {
    Spellings();
    SpelledTokens("HM", [HOUR, MINUTE], ':');
  }

  // ------------------------------------------------------------------ names

  /** Two names differ in one of their first three letters. */
  predicate Differ(a: string, b: string)
    requires |a| >= 3 && |b| >= 3
  {
    a[0] != b[0] || a[1] != b[1] || a[2] != b[2]
  }

  predicate AllDiffer(names: seq<string>) {
    Names(names) && forall i, j :: 0 <= i < j < |names| ==> Differ(names[i], names[j])
  }

  lemma NotAlsoHere(s: CString, pos: nat, a: string, b: string)
    requires |a| >= 3 && |b| >= 3 && Differ(a, b) && pos <= |s| && StartsWith(s, pos, a[..3])
    ensures !StartsWith(s, pos, b) && !StartsWith(s, pos, b[..3])
  {
    var k := if a[0] != b[0] then 0 else if a[1] != b[1] then 1 else 2;
    assert Lower(s[pos + k]) == a[..3][k] == a[k];
    assert b[..3][k] == b[k];
  }

  lemma {:induction false} NameFrom(names: seq<string>, s: CString, pos: nat, j: nat, i: nat)
    requires AllDiffer(names) && j <= i < |names| && pos <= |s| && StartsWith(s, pos, names[i][..3])
    ensures NameAt(names, s, pos, j) == (i, pos + if StartsWith(s, pos, names[i]) then |names[i]| else 3)
    decreases i - j
  {
    if j < i {
      assert Differ(names[j], names[i]);
      NotAlsoHere(s, pos, names[i], names[j]);
      NameFrom(names, s, pos, j + 1, i);
    }
  }

  lemma WeekdaysDiffer()
    ensures AllDiffer(WEEKDAYS)
  {
  }

  lemma MonthDiffers(i: nat, j: nat)
    requires i < j < 12
    ensures Differ(MONTHS[i], MONTHS[j])
  {
    if i < 3 {
    } else if i < 6 {
    } else {
    }
  }

  lemma MonthsDiffer()
    ensures AllDiffer(MONTHS)
  {
    forall i, j | 0 <= i < j < |MONTHS| ensures Differ(MONTHS[i], MONTHS[j]) {
      MonthDiffers(i, j);
    }
  }

  /** In any case, a name or its first three letters sets the field to the number of just that name. */
  lemma NamesAreFound(s: CString, st: State, i: nat)
    requires st.pos <= |s| && st.ok
    ensures i < 7 && StartsWith(s, st.pos, WEEKDAYS[i][..3]) ==>
      var len := if StartsWith(s, st.pos, WEEKDAYS[i]) then |WEEKDAYS[i]| else 3;
      Name(WEEKDAYS, Wday, s, st) == State(st.pos + len, st.tm.(wday := i), true)
    ensures i < 12 && StartsWith(s, st.pos, MONTHS[i][..3]) ==>
      var len := if StartsWith(s, st.pos, MONTHS[i]) then |MONTHS[i]| else 3;
      Name(MONTHS, Mon, s, st) == State(st.pos + len, st.tm.(mon := i), true)
  {
    WeekdaysDiffer();
    MonthsDiffer();
    if i < 7 && StartsWith(s, st.pos, WEEKDAYS[i][..3]) {
      NameFrom(WEEKDAYS, s, st.pos, 0, i);
    }
    if i < 12 && StartsWith(s, st.pos, MONTHS[i][..3]) {
      NameFrom(MONTHS, s, st.pos, 0, i);
    }
  }
}
