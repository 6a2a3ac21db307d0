/** What each conversion of strptime reads and stores (fflib/base/time_tool.h:56-297). */
module TimeConversions {
  import opened Options
  import opened Numerals
  import opened TimeTool
  import opened TimeLaws
  import opened TimeText

  // ---------------------------------------------------------------- numbers

  lemma {:induction false} SpacesEndAt(s: CString, i: nat, a: nat)
    requires i <= a <= |s| && (forall k :: i <= k < a ==> IsSpace(s[k])) && (a < |s| ==> !IsSpace(s[a]))
    ensures SkipSpace(s, i) == a
    decreases a - i
  {
    if i < a {
      SpacesEndAt(s, i + 1, a);
    }
  }

  /** White space, a sign or none, and digits: the value, the largest one if it does not fit, and
      with a minus sign what is missing to 2^32. */
  lemma StrtoulReads(s: CString, i: nat, a: nat, b: nat, e: nat)
    requires i <= a <= b < e <= |s| && (forall k :: i <= k < a ==> IsSpace(s[k]))
    requires b == a || (b == a + 1 && s[a] in {'-', '+'})
    requires AllDigits(s[b..e]) && !IsDigit(At(s, e))
    ensures var v := Value(s[b..e]);
            var minus := b > a && s[a] == '-';
            && Strtoul(s, i).1 == e
            && (v >= 0x1_0000_0000 ==> Strtoul(s, i).0 == 0xFFFF_FFFF)
            && (v < 0x1_0000_0000 && !minus ==> Strtoul(s, i).0 == v)
            && (0 < v < 0x1_0000_0000 && minus ==> Strtoul(s, i).0 == 0x1_0000_0000 - v)
            && (v == 0 ==> Strtoul(s, i).0 == 0)
  {
    assert IsDigit(s[b..e][0]) && s[b] == s[b..e][0];
    SpacesEndAt(s, i, a);
    DigitsEndAt(s, b, e);
  }

  /** At the position stand the digits of n, and no more of them. */
  predicate NumberAt(s: CString, p: nat, n: nat, e: nat) {
    p < e <= |s| && s[p..e] == Decimal(n) && !IsDigit(At(s, e)) && n < 0x1_0000_0000
  }

  lemma NumberIsRead(s: CString, p: nat, n: nat, e: nat)
    requires NumberAt(s, p, n, e)
    ensures Strtoul(s, p) == (n, e)
  {
    StrtoulReads(s, p, p, p, e);
  }

  /** The value is in the range: it is stored as v, and the text is read up to e; otherwise nothing changes. */
  predicate Stores(r: State, st: State, inRange: bool, tm: Tm, e: nat) {
    if inRange then r == State(e, tm, true) else r == State(st.pos, st.tm, false)
  }

  lemma LetterStores(c: char, spec: NumSpec, s: CString, st: State, n: nat, e: nat)
    requires st.ok && NumberAt(s, st.pos, n, e) && ConversionOf(c) == Num(spec)
    ensures Stores(Convert(ConversionOf(c), s, st), st, Accepted(spec, n), Put(st.tm, spec.field, Stored(spec, n)), e)
  {
    NumberIsRead(s, st.pos, n, e);
  }

  /** The conversions of one number: which field is set to what, and for which numbers. */
  lemma ClockNumbers(s: CString, st: State, n: nat, e: nat)
    requires st.ok && NumberAt(s, st.pos, n, e)
    ensures Stores(Convert(ConversionOf('S'), s, st), st, n <= 60, st.tm.(sec := n), e)
    ensures Stores(Convert(ConversionOf('M'), s, st), st, n <= 59, st.tm.(min := n), e)
    ensures Stores(Convert(ConversionOf('H'), s, st), st, n <= 23, st.tm.(hour := n), e)
    ensures Stores(Convert(ConversionOf('I'), s, st), st, 1 <= n <= 12, st.tm.(hour := n), e)
  {
    LetterStores('S', SECOND, s, st, n, e);
    LetterStores('M', MINUTE, s, st, n, e);
    LetterStores('H', HOUR, s, st, n, e);
    LetterStores('I', HOUR12, s, st, n, e);
  }

  lemma DateNumbers(s: CString, st: State, n: nat, e: nat)
    requires st.ok && NumberAt(s, st.pos, n, e)
    ensures Stores(Convert(ConversionOf('d'), s, st), st, 1 <= n <= 31, st.tm.(mday := n), e)
    ensures Stores(Convert(ConversionOf('e'), s, st), st, 1 <= n <= 31, st.tm.(mday := n), e)
    ensures Stores(Convert(ConversionOf('m'), s, st), st, 1 <= n <= 12, st.tm.(mon := n - 1), e)
    ensures Stores(Convert(ConversionOf('Y'), s, st), st, 1900 <= n <= 65535, st.tm.(year := n - 1900), e)
    ensures Stores(Convert(ConversionOf('y'), s, st), st, n <= 99, st.tm.(year := if n < 69 then n + 100 else n), e)
  {
    LetterStores('d', DAY, s, st, n, e);
    LetterStores('e', DAY, s, st, n, e);
    LetterStores('m', MONTH, s, st, n, e);
    LetterStores('Y', YEAR, s, st, n, e);
    LetterStores('y', YEAR2, s, st, n, e);
  }

  lemma DayNumbers(s: CString, st: State, n: nat, e: nat)
    requires st.ok && NumberAt(s, st.pos, n, e)
    ensures Stores(Convert(ConversionOf('w'), s, st), st, n <= 6, st.tm.(wday := n), e)
    ensures Stores(Convert(ConversionOf('j'), s, st), st, 1 <= n <= 366, st.tm.(yday := n - 1), e)
  {
    LetterStores('w', WEEKDAY, s, st, n, e);
    LetterStores('j', YEARDAY, s, st, n, e);
  }

  /** No number at all counts as 0. */
  lemma NoNumber(s: CString, st: State)
    requires st.ok && st.pos < |s| && !IsSpace(s[st.pos]) && !IsDigit(s[st.pos]) && s[st.pos] !in {'-', '+'}
    ensures Strtoul(s, st.pos) == (0, st.pos)
  {
    NoSpace(s, st.pos);
  }

  // ------------------------------------------------------- the other letters

  /** %n, %t and a blank in the format go on to the first character that is no white space. */
  lemma BlanksAreSkipped(s: CString, st: State, c: char)
    requires st.ok && st.pos < |s| && c in {'n', 't'}
    ensures var r := Convert(ConversionOf(c), s, st);
            && r == Turn(Blank, s, st) && r.ok && r.tm == st.tm && st.pos <= r.pos <= |s|
            && (forall k :: st.pos <= k < r.pos ==> IsSpace(s[k])) && !IsSpace(At(s, r.pos))
  {
    SkipsSpaces(s, st.pos);
  }

  lemma {:induction false} SkipsSpaces(s: CString, i: nat)
    requires i <= |s|
    ensures (forall k :: i <= k < SkipSpace(s, i) ==> IsSpace(s[k])) && !IsSpace(At(s, SkipSpace(s, i)))
    decreases |s| - i
  {
    if i < |s| && IsSpace(s[i]) {
      SkipsSpaces(s, i + 1);
    }
  }

  const LETTERS: set<char> :=
    {'a', 'A', 'b', 'B', 'h', 'd', 'e', 'D', 'H', 'I', 'j', 'm', 'M', 'n', 't', 'p', 'r', 'R', 'S', 'T', 'w', 'Y', 'y', '%'}

  /** These are the letters that mean something. */
  lemma LettersAreKnown(c: char)
    ensures ConversionOf(c) == Unknown <==> c !in LETTERS
  {
  }

  /** Letters without a meaning fail and change nothing. */
  lemma UnknownLetterFails(s: CString, st: State, c: char)
    requires st.ok && st.pos < |s| && c !in LETTERS
    ensures Convert(ConversionOf(c), s, st) == State(st.pos, st.tm, false)
  {
    LettersAreKnown(c);
  }

  /** %% wants a percent sign, and passes over any character. */
  lemma PercentIsMatched(s: CString, st: State)
    requires st.ok && st.pos < |s|
    ensures var r := Convert(ConversionOf('%'), s, st); r.pos == st.pos + 1 && r.tm == st.tm && (r.ok <==> s[st.pos] == '%')
  {
    assert ConversionOf('%') == Percent;
  }

  predicate LowerCase(word: string) {
    forall k :: 0 <= k < |word| ==> 'a' <= word[k] <= 'z'
  }

  /** Each letter of the word stands there, small or capital. */
  lemma WordInAnyCase(s: CString, p: nat, word: string)
    requires LowerCase(word)
    ensures StartsWith(s, p, word) <==>
            p + |word| <= |s| && forall k :: 0 <= k < |word| ==> s[p + k] == word[k] || s[p + k] as int + 32 == word[k] as int
  {
  }

  lemma NamesAreLowerCase(i: nat)
    ensures i < 7 ==> LowerCase(WEEKDAYS[i])
    ensures i < 12 ==> LowerCase(MONTHS[i])
  {
  }

  /** %a and %A read a week day, %b, %B and %h a month, by its name or the three letters it starts with. */
  lemma NamesAreStored(s: CString, st: State, c: char, i: nat)
    requires st.ok && st.pos < |s|
    ensures c in {'a', 'A'} && i < 7 && StartsWith(s, st.pos, WEEKDAYS[i][..3]) ==>
              var len := if StartsWith(s, st.pos, WEEKDAYS[i]) then |WEEKDAYS[i]| else 3;
              Convert(ConversionOf(c), s, st) == State(st.pos + len, st.tm.(wday := i), true)
    ensures c in {'b', 'B', 'h'} && i < 12 && StartsWith(s, st.pos, MONTHS[i][..3]) ==>
              var len := if StartsWith(s, st.pos, MONTHS[i]) then |MONTHS[i]| else 3;
              Convert(ConversionOf(c), s, st) == State(st.pos + len, st.tm.(mon := i), true)
  {
    NamesAreFound(s, st, i);
  }

  // ------------------------------------------------------ the twelve-hour clock

  /** How a clock with twelve hours shows hour h of the day. */
  function Shown(h: nat): (r: nat)
    ensures h < 24 ==> 1 <= r <= 12
  {
    if h % 12 == 0 then 12 else h % 12
  }

  function Half(h: nat): string {
    if h < 12 then "am" else "pm"
  }

  lemma HalfTells(s: CString, st: State, h: nat, advance: nat)
    requires h < 24 && st.pos <= |s| && st.tm.hour == Shown(h) && StartsWith(s, st.pos, Half(h))
    ensures AmPm(s, st, advance) == State(st.pos + advance, st.tm.(hour := h), st.ok)
  {
    HalvesDiffer(s, st.pos);
  }

  lemma MeridiemConverts(s: CString, st: State)
    requires st.ok && st.pos < |s|
    ensures Convert(ConversionOf('p'), s, st) == AmPm(s, st, 2)
  {
    assert ConversionOf('p') == Meridiem;
  }

  /** %p makes the hour that was shown the hour of the day. */
  lemma MeridiemTellsTheHour(s: CString, st: State, h: nat)
    requires h < 24 && st.ok && st.pos < |s| && st.tm.hour == Shown(h) && StartsWith(s, st.pos, Half(h))
    ensures Convert(ConversionOf('p'), s, st) == State(st.pos + 2, st.tm.(hour := h), true)
    ensures AmPm(s, st, 0) == State(st.pos, st.tm.(hour := h), true)
  {
    MeridiemConverts(s, st);
    HalfTells(s, st, h, 2);
    HalfTells(s, st, h, 0);
  }

  lemma HalvesDiffer(s: CString, p: nat)
    ensures !(StartsWith(s, p, "am") && StartsWith(s, p, "pm"))
  {
    assert StartsWith(s, p, "am") ==> Lower(s[p + 0]) == "am"[0] == 'a';
    assert StartsWith(s, p, "pm") ==> Lower(s[p + 0]) == "pm"[0] == 'p';
  }

  /** At p stands a time as "%I:%M:%S %p" prints it, the last word in any case. */
  predicate ShownAt(s: CString, p: nat, h: nat, m: nat, sec: nat) {
    && h < 24 && m <= 59 && sec <= 60 && p + 11 <= |s|
    && s[p..p + 2] == Print02(Shown(h)) && s[p + 2] == ':'
    && s[p + 3..p + 5] == Print02(m) && s[p + 5] == ':'
    && s[p + 6..p + 8] == Print02(sec) && s[p + 8] == ' '
    && StartsWith(s, p + 9, Half(h))
  }

  function WithClock(tm: Tm, h: int, m: int, sec: int): Tm {
    tm.(hour := h, min := m, sec := sec)
  }

  lemma ShownHour(s: CString, st: State, h: nat, m: nat, sec: nat)
    requires st.ok && ShownAt(s, st.pos, h, m, sec)
    ensures Number(HOUR12, s, st) == State(st.pos + 2, st.tm.(hour := Shown(h)), true)
  {
    NumberRead(HOUR12, s, st, Shown(h));
  }

  lemma ShownMinute(s: CString, p: nat, tm: Tm, h: nat, m: nat, sec: nat)
    requires ShownAt(s, p, h, m, sec)
    ensures Number(MINUTE, s, State(p + 3, tm, true)) == State(p + 5, tm.(min := m), true)
  {
    NumberRead(MINUTE, s, State(p + 3, tm, true), m);
  }

  lemma ShownSecond(s: CString, p: nat, tm: Tm, h: nat, m: nat, sec: nat)
    requires ShownAt(s, p, h, m, sec)
    ensures Number(SECOND, s, State(p + 6, tm, true)) == State(p + 8, tm.(sec := sec), true)
  {
    NumberRead(SECOND, s, State(p + 6, tm, true), sec);
  }

  lemma OneBlank(s: CString, p: nat, h: nat)
    requires p + 3 <= |s| && s[p] == ' ' && StartsWith(s, p + 1, Half(h))
    ensures SkipSpace(s, p) == p + 1 && !IsSpace(s[p + 1])
  {
    assert Lower(s[p + 1 + 0]) == Half(h)[0];
    assert !IsSpace(s[p + 1]);
    NoSpace(s, p + 1);
  }

  lemma ShownSeconds(s: CString, st: State, h: nat, m: nat, sec: nat)
    requires st.ok && ShownAt(s, st.pos, h, m, sec)
    ensures SecondsAmPm(s, State(st.pos + 6, st.tm.(hour := Shown(h), min := m), true)) == State(st.pos + 9, WithClock(st.tm, h, m, sec), true)
  {
    var tm := st.tm.(hour := Shown(h), min := m);
    ShownSecond(s, st.pos, tm, h, m, sec);
    OneBlank(s, st.pos + 8, h);
    MeridiemTellsTheHour(s, State(st.pos + 9, WithClock(st.tm, Shown(h), m, sec), true), h);
  }

  lemma ShownMinutes(s: CString, st: State, h: nat, m: nat, sec: nat)
    requires st.ok && ShownAt(s, st.pos, h, m, sec)
    ensures MinutesOn(s, State(st.pos + 3, st.tm.(hour := Shown(h)), true)) == State(st.pos + 9, WithClock(st.tm, h, m, sec), true)
  {
    var tm := st.tm.(hour := Shown(h));
    ShownMinute(s, st.pos, tm, h, m, sec);
    ShownSeconds(s, st, h, m, sec);
  }

  lemma ShownClock(s: CString, st: State, h: nat, m: nat, sec: nat)
    requires st.ok && ShownAt(s, st.pos, h, m, sec)
    ensures TwelveHours(s, st) == State(st.pos + 9, WithClock(st.tm, h, m, sec), true)
  {
    ShownHour(s, st, h, m, sec);
    ShownMinutes(s, st, h, m, sec);
  }

  lemma ClockConverts(s: CString, st: State)
    requires st.ok && st.pos < |s|
    ensures Convert(ConversionOf('r'), s, st) == Restored(TwelveHours(s, st), st.pos)
  {
    assert ConversionOf('r') == Clock12;
  }

  /** %r reads the time of day back, up to the word am or pm, which it does not consume. */
  lemma Clock12RoundTrip(s: CString, st: State, h: nat, m: nat, sec: nat)
    requires st.ok && ShownAt(s, st.pos, h, m, sec)
    ensures Convert(ConversionOf('r'), s, st) == State(st.pos + 9, WithClock(st.tm, h, m, sec), true)
  {
    ClockConverts(s, st);
    ShownClock(s, st, h, m, sec);
  }

  // ------------------------------------------------------------ its expansion

  const CLOCK12: CString := "%I:%M:%S %p"

  /** CLOCK12 in parts. */
  function Shape(): seq<Token> {
    [Conv(Num(HOUR12))] + ([Plain(':')] + ([Conv(Num(MINUTE))] + ([Plain(':')] + ([Conv(Num(SECOND))] + ([Blank] + ([Conv(Meridiem)] + []))))))
  }

  lemma TokensOfBlank(rest: CString)
    ensures Tokens([' '] + rest) == [Blank] + Tokens(rest)
  {
    TokensStep([' '] + rest, [' '], rest);
  }

  lemma LastTokens()
    ensures Tokens(" %p") == [Blank] + ([Conv(Meridiem)] + [])
  {
    TokensOfConversion('p', "");
    TokensOfBlank("%p");
    assert ['%', 'p'] + "" == "%p" && [' '] + "%p" == " %p";
    assert ConversionOf('p') == Meridiem;
  }

  /** "%c" and more of a format, and ":" and more. */
  function Letter(c: char, rest: CString): CString
    requires c != '\0'
  {
    ['%', c] + rest
  }

  function Colon(rest: CString): CString {
    [':'] + rest
  }

  lemma NumberTokens(c: char, spec: NumSpec, rest: CString, ts: seq<Token>)
    requires c != '\0' && ConversionOf(c) == Num(spec) && Tokens(rest) == ts
    ensures Tokens(Letter(c, rest)) == [Conv(Num(spec))] + ts
    ensures Tokens(Colon(Letter(c, rest))) == [Plain(':')] + ([Conv(Num(spec))] + ts)
  {
    TokensOfConversion(c, rest);
    TokensOfPlain(':', Letter(c, rest));
  }

  function Minutes(last: CString): CString {
    Colon(Letter('M', Colon(Letter('S', last))))
  }

  lemma MinutesTokens(last: CString, ts: seq<Token>)
    requires Tokens(last) == ts
    ensures Tokens(Minutes(last)) == [Plain(':')] + ([Conv(Num(MINUTE))] + ([Plain(':')] + ([Conv(Num(SECOND))] + ts)))
  {
    NumberTokens('S', SECOND, last, ts);
    NumberTokens('M', MINUTE, Colon(Letter('S', last)), [Plain(':')] + ([Conv(Num(SECOND))] + ts));
  }

  lemma ShapeText()
    ensures Letter('I', Minutes(" %p")) == CLOCK12
  {
  }

  lemma ShapeTokens()
    ensures Tokens(CLOCK12) == Shape()
  {
    LastTokens();
    MinutesTokens(" %p", [Blank] + ([Conv(Meridiem)] + []));
    NumberTokens('I', HOUR12, Minutes(" %p"), Tokens(Minutes(" %p")));
    ShapeText();
  }

  lemma MeridiemEnds(s: CString, st: State, h: nat)
    requires h < 24 && st.ok && st.pos + 3 <= |s| && s[st.pos] == ' ' && StartsWith(s, st.pos + 1, Half(h)) && st.tm.hour == Shown(h)
    ensures Run([Blank] + ([Conv(Meridiem)] + []), s, st) == State(st.pos + 3, st.tm.(hour := h), true)
  {
    OneBlank(s, st.pos, h);
    MeridiemTellsTheHour(s, st.(pos := st.pos + 1), h);
    RunOne(Blank, [Conv(Meridiem)] + [], s, st);
    RunOne(Conv(Meridiem), [], s, st.(pos := st.pos + 1));
  }

  lemma NumberThen(spec: NumSpec, sep: char, ts: seq<Token>, s: CString, st: State, r: State)
    requires st.ok && st.pos < |s| && r == Number(spec, s, st) && r.ok && r.pos < |s| && s[r.pos] == sep
    ensures Run([Conv(Num(spec))] + ([Plain(sep)] + ts), s, st) == Run(ts, s, r.(pos := r.pos + 1))
  {
    RunOne(Conv(Num(spec)), [Plain(sep)] + ts, s, st);
    ThenSeparator(ts, sep, s, r);
  }

  lemma NumberThenBlank(spec: NumSpec, ts: seq<Token>, s: CString, st: State, r: State)
    requires st.ok && st.pos < |s| && r == Number(spec, s, st) && r.ok && r.pos < |s|
    ensures Run([Conv(Num(spec))] + ([Blank] + ts), s, st) == Run([Blank] + ts, s, r)
  {
    RunOne(Conv(Num(spec)), [Blank] + ts, s, st);
  }

  lemma ReadsHour(ts: seq<Token>, s: CString, st: State, h: nat, m: nat, sec: nat)
    requires st.ok && ShownAt(s, st.pos, h, m, sec)
    ensures Run([Conv(Num(HOUR12))] + ([Plain(':')] + ts), s, st) == Run(ts, s, State(st.pos + 3, st.tm.(hour := Shown(h)), true))
  {
    ShownHour(s, st, h, m, sec);
    NumberThen(HOUR12, ':', ts, s, st, State(st.pos + 2, st.tm.(hour := Shown(h)), true));
  }

  lemma ReadsMinute(ts: seq<Token>, s: CString, p: nat, tm: Tm, h: nat, m: nat, sec: nat)
    requires ShownAt(s, p, h, m, sec)
    ensures Run([Conv(Num(MINUTE))] + ([Plain(':')] + ts), s, State(p + 3, tm, true)) == Run(ts, s, State(p + 6, tm.(min := m), true))
  {
    ShownMinute(s, p, tm, h, m, sec);
    NumberThen(MINUTE, ':', ts, s, State(p + 3, tm, true), State(p + 5, tm.(min := m), true));
  }

  lemma ReadsSecond(s: CString, p: nat, tm: Tm, h: nat, m: nat, sec: nat)
    requires ShownAt(s, p, h, m, sec) && tm.hour == Shown(h)
    ensures Run([Conv(Num(SECOND))] + ([Blank] + ([Conv(Meridiem)] + [])), s, State(p + 6, tm, true)) ==
            State(p + 11, tm.(hour := h, sec := sec), true)
  {
    ShownSecond(s, p, tm, h, m, sec);
    NumberThenBlank(SECOND, [Conv(Meridiem)] + [], s, State(p + 6, tm, true), State(p + 8, tm.(sec := sec), true));
    MeridiemEnds(s, State(p + 8, tm.(sec := sec), true), h);
  }

  lemma ShapeReads(s: CString, st: State, h: nat, m: nat, sec: nat)
    requires st.ok && ShownAt(s, st.pos, h, m, sec)
    ensures Run(Shape(), s, st) == State(st.pos + 11, WithClock(st.tm, h, m, sec), true)
  {
    var seconds := [Conv(Num(SECOND))] + ([Blank] + ([Conv(Meridiem)] + []));
    var hour := st.tm.(hour := Shown(h));
    ReadsHour([Conv(Num(MINUTE))] + ([Plain(':')] + seconds), s, st, h, m, sec);
    ReadsMinute(seconds, s, st.pos, hour, h, m, sec);
    ReadsSecond(s, st.pos, hour.(min := m), h, m, sec);
  }

  /** The expansion of %r reads the same time, and the word am or pm with it. */
  lemma Clock12ByPartsRoundTrip(s: CString, st: State, h: nat, m: nat, sec: nat)
    requires st.ok && ShownAt(s, st.pos, h, m, sec)
    ensures CLOCK12 == "%I:%M:%S %p"
    ensures Run(Tokens(CLOCK12), s, st) == State(st.pos + 11, WithClock(st.tm, h, m, sec), true)
  {
    ShapeTokens();
    ShapeReads(s, st, h, m, sec);
  }
}
