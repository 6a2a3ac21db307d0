/** The hand-written strptime and the printer it reads back (fflib/base/time_tool.h:42-309). */
module TimeTool {
  import opened Options
  import opened Numerals

  /** A C string without its terminator. */
  type CString = s: string | '\0' !in s

  /** Reading at the terminator gives NUL; reading after it is not possible. */
  function At(s: CString, i: nat): (c: char)
    requires i <= |s|
    ensures c == '\0' <==> i == |s|
  {
    if i < |s| then assert s[i] in s; s[i] else '\0'
  }

  datatype Tm = Tm(sec: int, min: int, hour: int, mday: int, mon: int, year: int, wday: int, yday: int)

  /** The reading position, the broken-down time so far and `working`. */
  datatype State = State(pos: nat, tm: Tm, ok: bool)

  // ------------------------------------------------------------------- libc

  predicate IsSpace(c: char) {
    c in {' ', '\t', '\n', '\r', '\U{0B}', '\U{0C}'}
  }

  function SkipSpace(s: CString, i: nat): (r: nat)
    requires i <= |s|
    ensures i <= r <= |s|
    decreases |s| - i
  {
    if i < |s| && IsSpace(s[i]) then SkipSpace(s, i + 1) else i
  }

  function DigitsEnd(s: CString, i: nat): (r: nat)
    requires i <= |s|
    ensures i <= r <= |s|
    decreases |s| - i
  {
    if i < |s| && IsDigit(s[i]) then DigitsEnd(s, i + 1) else i
  }

  const ULONG: int := 0x1_0000_0000

  /** An unsigned long: too much is the largest one, and a minus sign wraps around. */
  function Unsigned(v: nat, minus: bool): (r: nat)
    ensures r < ULONG
  {
    if v >= ULONG then ULONG - 1 else if minus then (ULONG - v) % ULONG else v
  }

  function AfterSign(s: CString, a: nat): (b: nat)
    requires a <= |s|
    ensures a <= b <= |s|
  {
    if At(s, a) in {'-', '+'} then a + 1 else a
  }

  /** strtoul(s + i, &end, 10) with a 32-bit unsigned long: white space, a sign, digits. */
  function Strtoul(s: CString, i: nat): (r: (nat, nat))
    requires i <= |s|
    ensures i <= r.1 <= |s| && r.0 < ULONG
  {
    var a := SkipSpace(s, i);
    var b := AfterSign(s, a);
    var e := DigitsEnd(s, b);
    if e == b then (0, i) else (Unsigned(Value(s[b..e]), At(s, a) == '-'), e)
  }

  function Lower(c: char): char {
    if 'A' <= c <= 'Z' then (c as int + 32) as char else c
  }

  /** !strnicmp(word, s + i, strlen(word)) for a lower-case word. */
  predicate StartsWith(s: CString, i: nat, word: string) {
    i + |word| <= |s| && forall k :: 0 <= k < |word| ==> Lower(s[i + k]) == word[k]
  }

  // ------------------------------------------------------------ conversions

  datatype Field = Sec | Min | Hour | Mday | Mon | Year | Wday | Yday

  function Get(tm: Tm, f: Field): int {
    match f
    case Sec => tm.sec
    case Min => tm.min
    case Hour => tm.hour
    case Mday => tm.mday
    case Mon => tm.mon
    case Year => tm.year
    case Wday => tm.wday
    case Yday => tm.yday
  }

  function Put(tm: Tm, f: Field, v: int): Tm {
    match f
    case Sec => tm.(sec := v)
    case Min => tm.(min := v)
    case Hour => tm.(hour := v)
    case Mday => tm.(mday := v)
    case Mon => tm.(mon := v)
    case Year => tm.(year := v)
    case Wday => tm.(wday := v)
    case Yday => tm.(yday := v)
  }

  /** A number to read: its field, the accepted values, what is added, and the pivot of two-digit years. */
  datatype NumSpec = NumSpec(field: Field, low: nat, high: nat, offset: int, pivot: bool)

  const SECOND := NumSpec(Sec, 0, 60, 0, false)
  const MINUTE := NumSpec(Min, 0, 59, 0, false)
  const HOUR := NumSpec(Hour, 0, 23, 0, false)
  const HOUR12 := NumSpec(Hour, 1, 12, 0, false)
  const DAY := NumSpec(Mday, 1, 31, 0, false)
  const MONTH := NumSpec(Mon, 1, 12, -1, false)
  const YEAR := NumSpec(Year, 1900, 65535, -1900, false)
  const YEAR2 := NumSpec(Year, 0, 99, 0, true)
  const WEEKDAY := NumSpec(Wday, 0, 6, 0, false)
  const YEARDAY := NumSpec(Yday, 1, 366, -1, false)

  /** What is stored for the number num. */
  function Stored(n: NumSpec, num: int): int {
    if n.pivot && num + n.offset < 69 then num + n.offset + 100 else num + n.offset
  }

  predicate Accepted(n: NumSpec, num: int) {
    n.low <= num <= n.high
  }

  function Number(n: NumSpec, s: CString, st: State): (r: State)
    requires st.pos <= |s|
    ensures st.pos <= r.pos <= |s|
  {
    var (num, end) := Strtoul(s, st.pos);
    if Accepted(n, num) then State(end, Put(st.tm, n.field, Stored(n, num)), st.ok) else st.(ok := false)
  }

  const WEEKDAYS: seq<string> := ["sunday", "monday", "tuesday", "wednesday", "thursday", "friday", "saturday"]
  const MONTHS: seq<string> :=
    ["january", "february", "march", "april", "may", "june", "july", "august", "september", "october", "november", "december"]

  predicate Names(names: seq<string>) {
    forall i :: 0 <= i < |names| ==> |names[i]| >= 3
  }

  /** The first name, from index i on, that is there in full or by its first three letters. */
  function NameAt(names: seq<string>, s: CString, pos: nat, i: nat): (r: (int, nat))
    requires Names(names) && pos <= |s| && i <= |names|
    ensures pos <= r.1 <= |s| && -1 <= r.0 < |names|
    decreases |names| - i
  {
    if i == |names| then (-1, pos)
    else if StartsWith(s, pos, names[i]) then (i, pos + |names[i]|)
    else if StartsWith(s, pos, names[i][..3]) then (i, pos + 3)
    else NameAt(names, s, pos, i + 1)
  }

  function Name(names: seq<string>, f: Field, s: CString, st: State): (r: State)
    requires Names(names) && st.pos <= |s|
    ensures st.pos <= r.pos <= |s|
  {
    var (i, end) := NameAt(names, s, st.pos, 0);
    State(end, Put(st.tm, f, i), i >= 0)
  }

  /** Numbers with a separator between them; a missing separator ends the conversion, and is no failure. */
  function Chain(ns: seq<NumSpec>, sep: char, s: CString, st: State): (r: State)
    requires st.pos <= |s|
    ensures st.pos <= r.pos <= |s|
  {
    if ns == [] then st else
    var n := Number(ns[0], s, st);
    if n.ok && |ns| > 1 && n.pos < |s| && s[n.pos] == sep then Chain(ns[1..], sep, s, n.(pos := n.pos + 1)) else n
  }

  /** On failure the position is restored; the fields already stored are not. */
  function Restored(r: State, save: nat): State {
    if r.ok then r else r.(pos := save)
  }

  /** 12 am is hour 0; 1 pm to 11 pm are hours 13 to 23. */
  function AmPm(s: CString, st: State, advance: nat): State
    requires st.pos <= |s|
  {
    if StartsWith(s, st.pos, "am") then
      State(st.pos + advance, if st.tm.hour == 12 then st.tm.(hour := 0) else st.tm, st.ok)
    else if StartsWith(s, st.pos, "pm") then
      State(st.pos + advance, if st.tm.hour < 12 then st.tm.(hour := st.tm.hour + 12) else st.tm, st.ok)
    else st.(ok := false)
  }

  /** %S, and am or pm after white space, which is looked at but not consumed. */
  function SecondsAmPm(s: CString, st: State): (r: State)
    requires st.pos <= |s|
    ensures st.pos <= r.pos <= |s|
  {
    var c := Number(SECOND, s, st);
    if c.ok && IsSpace(At(s, c.pos)) then AmPm(s, c.(pos := SkipSpace(s, c.pos)), 0) else c
  }

  /** %M, and the seconds after a colon. */
  function MinutesOn(s: CString, st: State): (r: State)
    requires st.pos <= |s|
    ensures st.pos <= r.pos <= |s|
  {
    var m := Number(MINUTE, s, st);
    if m.ok && At(s, m.pos) == ':' then SecondsAmPm(s, m.(pos := m.pos + 1)) else m
  }

  /** %r: %I:%M:%S and am or pm. */
  function TwelveHours(s: CString, st: State): (r: State)
    requires st.pos <= |s|
    ensures st.pos <= r.pos <= |s|
  {
    var h := Number(HOUR12, s, st);
    if h.ok && At(s, h.pos) == ':' then MinutesOn(s, h.(pos := h.pos + 1)) else h
  }

  /** The conversions: one number, a name, several numbers, and the others. */
  datatype Conversion =
    | Num(n: NumSpec)
    | DayName
    | MonthName
    | Compound(ns: seq<NumSpec>, sep: char)
    | Spaces
    | Meridiem
    | Clock12
    | Percent
    | Unknown

  /** The conversion of the character after '%'. */
  function ConversionOf(c: char): (k: Conversion)
  {
    match c
    case 'a' => DayName
    case 'A' => DayName
    case 'b' => MonthName
    case 'B' => MonthName
    case 'h' => MonthName
    case 'd' => Num(DAY)
    case 'e' => Num(DAY)
    case 'D' => Compound([MONTH, DAY, YEAR2], '/')
    case 'H' => Num(HOUR)
    case 'I' => Num(HOUR12)
    case 'j' => Num(YEARDAY)
    case 'm' => Num(MONTH)
    case 'M' => Num(MINUTE)
    case 'n' => Spaces
    case 't' => Spaces
    case 'p' => Meridiem
    case 'r' => Clock12
    case 'R' => Compound([HOUR, MINUTE], ':')
    case 'S' => Num(SECOND)
    case 'T' => Compound([HOUR, MINUTE, SECOND], ':')
    case 'w' => Num(WEEKDAY)
    case 'Y' => Num(YEAR)
    case 'y' => Num(YEAR2)
    case '%' => Percent
    case _ => Unknown
  }

  /** A part of a format: a conversion, white space, or a character to match. */
  datatype Token = Conv(k: Conversion) | Blank | Plain(c: char)

  function Drop(fmt: CString, n: nat): (r: CString)
    ensures n > 0 && fmt != "" ==> |r| < |fmt|
  {
    if n <= |fmt| then assert forall c :: c in fmt[n..] ==> c in fmt; fmt[n..] else ""
  }

  /** '%' takes the character after it along, which at the end of the format is the terminator. */
  function Width(fmt: CString): (w: nat)
    requires fmt != ""
    ensures w > 0
  {
    if fmt[0] == '%' then 2 else 1
  }

  function FirstToken(fmt: CString): (t: Token)
    requires fmt != ""
  {
    if fmt[0] == '%' then Conv(ConversionOf(At(fmt, 1))) else if IsSpace(fmt[0]) then Blank else Plain(fmt[0])
  }

  function Tokens(fmt: CString): (r: seq<Token>)
    decreases |fmt|
  {
    if fmt == "" then [] else [FirstToken(fmt)] + Tokens(Drop(fmt, Width(fmt)))
  }

  function Convert(k: Conversion, s: CString, st: State): (r: State)
    requires st.pos < |s| && st.ok
    ensures st.pos <= r.pos <= |s|
  {
    match k
    case Num(n) => Number(n, s, st)
    case DayName => Name(WEEKDAYS, Wday, s, st)
    case MonthName => Name(MONTHS, Mon, s, st)
    case Compound(ns, sep) => Restored(Chain(ns, sep, s, st), st.pos)
    case Spaces => st.(pos := SkipSpace(s, st.pos))
    case Meridiem => AmPm(s, st, 2)
    case Clock12 => Restored(TwelveHours(s, st), st.pos)
    case Percent => State(st.pos + 1, st.tm, s[st.pos] == '%')
    case Unknown => st.(ok := false)
  }

  /** What one token does. */
  function Turn(t: Token, s: CString, st: State): (r: State)
    requires st.pos < |s| && st.ok
    ensures st.pos <= r.pos <= |s|
  {
    match t
    case Conv(k) => Convert(k, s, st)
    case Blank => st.(pos := SkipSpace(s, st.pos))
    case Plain(c) => if s[st.pos] == c then st.(pos := st.pos + 1) else st.(ok := false)
  }

  /** The format is read until it ends, the text ends, or something does not match. */
  function Run(ts: seq<Token>, s: CString, st: State): (r: State)
    requires st.pos <= |s|
    ensures st.pos <= r.pos <= |s|
  {
    if !st.ok || ts == [] || st.pos == |s| then st else Run(ts[1..], s, Turn(ts[0], s, st))
  }
}
