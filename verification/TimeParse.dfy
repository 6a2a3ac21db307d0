/** strptime in the form of the source: positions and a broken-down time updated in place. */
module TimeParse {
  import opened Options
  import opened TimeTool

  class TmBuf {
    var tm: Tm

    constructor (t: Tm)
      ensures tm == t
    {
      tm := t;
    }
  }

  /** strp_atoi: a number in [low, high] goes into the result and moves the position. */
  method StrpAtoi(s: CString, pos: nat, result: int, low: nat, high: nat, offset: int)
    returns (worked: bool, next: nat, stored: int)
    requires pos <= |s|
    ensures var (num, end) := Strtoul(s, pos);
            && (worked <==> low <= num <= high)
            && (next, stored) == if worked then (end, num + offset) else (pos, result)
  {
    next, stored, worked := pos, result, false;
    var (num, end) := Strtoul(s, pos);
    if num >= low && num <= high {
      stored := num + offset;
      next := end;
      worked := true;
    }
  }

  method SkipSpaces(s: CString, pos: nat) returns (next: nat)
    requires pos <= |s|
    ensures next == SkipSpace(s, pos)
  {
    next := pos;
    while IsSpace(At(s, next))
      invariant pos <= next <= |s|
      invariant SkipSpace(s, next) == SkipSpace(s, pos)
      decreases |s| - next
    {
      next := next + 1;
    }
  }

  /** The loop over the names of the week days or of the months. */
  method FindName(names: seq<string>, s: CString, pos: nat) returns (working: bool, found: int, next: nat)
    requires Names(names) && pos <= |s|
    ensures (found, next) == NameAt(names, s, pos, 0) && working == (found >= 0)
  {
    working, found, next := false, -1, pos;
    var i := 0;
    while i < |names|
      invariant i <= |names| && !working && found == -1 && next == pos
      invariant NameAt(names, s, pos, i) == NameAt(names, s, pos, 0)
    {
      var len := |names[i]|;
      if StartsWith(s, pos, names[i]) {
        found, next, working := i, next + len, true;
        return;
      } else if StartsWith(s, pos, names[i][..3]) {
        found, next, working := i, next + 3, true;
        return;
      }
      i := i + 1;
    }
  }

  method AmOrPm(s: CString, pos: nat, tm: TmBuf, advance: nat) returns (working: bool, next: nat)
    requires pos <= |s|
    modifies tm
    ensures State(next, tm.tm, working) == AmPm(s, State(pos, old(tm.tm), true), advance)
  {
    next, working := pos, true;
    if StartsWith(s, next, "am") {
      if tm.tm.hour == 12 {
        tm.tm := tm.tm.(hour := 0);
      }
      next := next + advance;
    } else if StartsWith(s, next, "pm") {
      if tm.tm.hour < 12 {
        tm.tm := tm.tm.(hour := tm.tm.hour + 12);
      }
      next := next + advance;
    } else {
      working := false;
    }
  }

  /** The cases of a single number. */
  method OneNumber(n: NumSpec, str: CString, pos: nat, tm: TmBuf) returns (working: bool, s: nat)
    requires pos <= |str|
    modifies tm
    ensures State(s, tm.tm, working) == Number(n, str, State(pos, old(tm.tm), true))
  {
    var v;
    working, s, v := StrpAtoi(str, pos, Get(tm.tm, n.field), n.low, n.high, n.offset);
    if n.pivot && working && v < 69 {
      v := v + 100;
    }
    tm.tm := Put(tm.tm, n.field, v);
  }

  /** The nested ifs of cases 'D', 'R' and 'T'. */
  method Numbers(ns: seq<NumSpec>, sep: char, str: CString, pos: nat, tm: TmBuf) returns (working: bool, s: nat)
    requires pos <= |str|
    modifies tm
    ensures State(s, tm.tm, working) == Chain(ns, sep, str, State(pos, old(tm.tm), true))
    decreases |ns|
  {
    working, s := true, pos;
    if ns == [] {
      return;
    }
    ChainStep(ns, sep, str, State(pos, tm.tm, true));
    working, s := OneNumber(ns[0], str, pos, tm);
    if working && |ns| > 1 && s < |str| && str[s] == sep {
      s := s + 1;
      working, s := Numbers(ns[1..], sep, str, s, tm);
    }
  }

  lemma ChainStep(ns: seq<NumSpec>, sep: char, s: CString, st: State)
    requires ns != [] && st.pos <= |s|
    ensures var n := Number(ns[0], s, st);
            Chain(ns, sep, s, st) ==
            if n.ok && |ns| > 1 && n.pos < |s| && s[n.pos] == sep then Chain(ns[1..], sep, s, n.(pos := n.pos + 1)) else n
  {
  }

  /** Cases 'D', 'R' and 'T': on failure the position goes back. */
  method SeveralNumbers(ns: seq<NumSpec>, sep: char, str: CString, pos: nat, tm: TmBuf) returns (working: bool, s: nat)
    requires pos <= |str|
    modifies tm
    ensures State(s, tm.tm, working) == Restored(Chain(ns, sep, str, State(pos, old(tm.tm), true)), pos)
  {
    working, s := Numbers(ns, sep, str, pos, tm);
    if !working {
      s := pos;
    }
  }

  method Seconds(str: CString, pos: nat, tm: TmBuf) returns (working: bool, s: nat)
    requires pos <= |str|
    modifies tm
    ensures State(s, tm.tm, working) == SecondsAmPm(str, State(pos, old(tm.tm), true))
  {
    working, s := OneNumber(SECOND, str, pos, tm);
    if working && IsSpace(At(str, s)) {
      s := s + 1;
      s := SkipSpaces(str, s);
      working, s := AmOrPm(str, s, tm, 0);
    }
  }

  method MinuteSeconds(str: CString, pos: nat, tm: TmBuf) returns (working: bool, s: nat)
    requires pos <= |str|
    modifies tm
    ensures State(s, tm.tm, working) == MinutesOn(str, State(pos, old(tm.tm), true))
  {
    working, s := OneNumber(MINUTE, str, pos, tm);
    if working && At(str, s) == ':' {
      s := s + 1;
      working, s := Seconds(str, s, tm);
    }
  }

  /** Case 'r'. */
  method Clock(str: CString, pos: nat, tm: TmBuf) returns (working: bool, s: nat)
    requires pos <= |str|
    modifies tm
    ensures State(s, tm.tm, working) == Restored(TwelveHours(str, State(pos, old(tm.tm), true)), pos)
  {
    working, s := OneNumber(HOUR12, str, pos, tm);
    if working && At(str, s) == ':' {
      s := s + 1;
      working, s := MinuteSeconds(str, s, tm);
    }
    if !working {
      s := pos;
    }
  }

  /** The switch on the character after '%'. */
  method ConvertAt(c: char, str: CString, pos: nat, tm: TmBuf) returns (working: bool, s: nat)
    requires pos < |str|
    modifies tm
    ensures State(s, tm.tm, working) == TimeTool.Convert(ConversionOf(c), str, State(pos, old(tm.tm), true))
  {
    working, s := true, pos;
    var v;
    match ConversionOf(c) {
      case DayName =>
        working, v, s := FindName(WEEKDAYS, str, pos);
        tm.tm := tm.tm.(wday := v);
      case MonthName =>
        working, v, s := FindName(MONTHS, str, pos);
        tm.tm := tm.tm.(mon := v);
      case Num(n) => working, s := OneNumber(n, str, pos, tm);
      case Compound(ns, sep) => working, s := SeveralNumbers(ns, sep, str, pos, tm);
      case Spaces => s := SkipSpaces(str, pos);
      case Meridiem => working, s := AmOrPm(str, pos, tm, 2);
      case Clock12 => working, s := Clock(str, pos, tm);
      case Percent =>
        if At(str, s) != '%' {
          working := false;
        }
        s := s + 1;
      case Unknown => working := false;
    }
  }

  /** With the format read up to f, what is to come leads to `want`. */
  ghost predicate Leads(format: CString, f: nat, str: CString, st: State, want: State) {
    st.pos <= |str| && Run(Tokens(Drop(format, f)), str, st) == want
  }

  /** One turn of the loop: one format character, or '%' and the specifier after it. */
  method OneTurn(str: CString, format: CString, fpos: nat, pos: nat, tm: TmBuf, ghost want: State)
    returns (working: bool, f: nat, s: nat)
    requires fpos < |format| && pos < |str| && Leads(format, fpos, str, State(pos, tm.tm, true), want)
    modifies tm
    ensures f > fpos && f <= |format| + (if working then 0 else 1)
    ensures Leads(format, f, str, State(s, tm.tm, working), want)
  {
    working, f, s := true, fpos, pos;
    if format[f] == '%' {
      ConversionAt(format, f, str, State(s, tm.tm, true), want);
      f := f + 1;
      working, s := ConvertAt(At(format, f), str, s, tm);
    } else if IsSpace(format[f]) {
      BlankAt(format, f, str, State(s, tm.tm, true), want);
      s := SkipSpaces(str, s);
    } else {
      PlainAt(format, f, str, State(s, tm.tm, true), want);
      if At(str, s) != format[f] {
        working := false;
      } else {
        s := s + 1;
      }
    }
    f := f + 1;
  }

  /** strptime: the end of what was matched, or nothing. */
  method StrpTime(str: CString, format: CString, tm: TmBuf) returns (end: Option<nat>)
    modifies tm
    ensures var r := Run(Tokens(format), str, State(0, old(tm.tm), true));
            && tm.tm == r.tm
            && end == if r.ok then Some(r.pos) else None
  {
    var working, f: nat, s: nat := true, 0, 0;
    ghost var want := Run(Tokens(format), str, State(0, tm.tm, true));
    assert Drop(format, 0) == format;
    while working && At(format, f) != '\0' && At(str, s) != '\0'
      invariant f <= |format| + if working then 0 else 1
      invariant Leads(format, f, str, State(s, tm.tm, working), want)
      decreases |format| + 1 - f
    {
      working, f, s := OneTurn(str, format, f, s, tm, want);
    }
    end := if working then Some(s) else None;
  }

  lemma TokensAt(format: CString, f: nat)
    requires f < |format|
    ensures var d := Drop(format, f);
            && d != "" && d[0] == format[f] && At(d, 1) == At(format, f + 1)
            && Tokens(d) == [FirstToken(d)] + Tokens(Drop(format, f + Width(d)))
            && Tokens(d) != [] && Tokens(d)[0] == FirstToken(d) && Tokens(d)[1..] == Tokens(Drop(format, f + Width(d)))
  {
    var d := Drop(format, f);
    assert Drop(d, Width(d)) == Drop(format, f + Width(d));
  }

  lemma RunFirst(ts: seq<Token>, s: CString, st: State)
    requires ts != [] && st.pos < |s| && st.ok
    ensures Run(ts, s, st) == Run(ts[1..], s, Turn(ts[0], s, st))
  {
  }

  lemma LeadsOn(format: CString, f: nat, s: CString, st: State, want: State)
    requires f < |format| && st.pos < |s| && st.ok && Leads(format, f, s, st, want)
    ensures var d := Drop(format, f);
            && d != "" && d[0] == format[f] && At(d, 1) == At(format, f + 1)
            && Leads(format, f + Width(d), s, Turn(FirstToken(d), s, st), want)
  {
    TokensAt(format, f);
    RunFirst(Tokens(Drop(format, f)), s, st);
  }

  lemma ConversionAt(format: CString, f: nat, s: CString, st: State, want: State)
    requires f < |format| && st.pos < |s| && st.ok && format[f] == '%' && Leads(format, f, s, st, want)
    ensures Leads(format, f + 2, s, Convert(ConversionOf(At(format, f + 1)), s, st), want)
    ensures f + 1 == |format| ==> !Convert(ConversionOf(At(format, f + 1)), s, st).ok
  {
    LeadsOn(format, f, s, st, want);
  }

  lemma BlankAt(format: CString, f: nat, s: CString, st: State, want: State)
    requires f < |format| && st.pos < |s| && st.ok && format[f] != '%' && IsSpace(format[f]) && Leads(format, f, s, st, want)
    ensures Leads(format, f + 1, s, st.(pos := SkipSpace(s, st.pos)), want)
  {
    LeadsOn(format, f, s, st, want);
  }

  lemma PlainToken(d: CString)
    requires d != "" && d[0] != '%' && !IsSpace(d[0])
    ensures FirstToken(d) == Plain(d[0]) && Width(d) == 1
  {
  }

  lemma PlainTurns(c: char, s: CString, st: State)
    requires st.pos < |s| && st.ok
    ensures Turn(Plain(c), s, st) == if s[st.pos] == c then st.(pos := st.pos + 1) else st.(ok := false)
  {
  }

  lemma PlainAt(format: CString, f: nat, s: CString, st: State, want: State)
    requires f < |format| && st.pos < |s| && st.ok && format[f] != '%' && !IsSpace(format[f]) && Leads(format, f, s, st, want)
    ensures s[st.pos] == format[f] ==> Leads(format, f + 1, s, st.(pos := st.pos + 1), want)
    ensures s[st.pos] != format[f] ==> Leads(format, f + 1, s, st.(ok := false), want)
  {
    LeadsOn(format, f, s, st, want);
    PlainToken(Drop(format, f));
    PlainTurns(format[f], s, st);
  }
}
