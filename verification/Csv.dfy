/** Splitting and CSV loading (fflib/base/str_tool.h:28-60 and 115-152). */
module Csv {
  const QUOTE := '"'

  // ------------------------------------------------------------------- search

  predicate Occurs(s: string, sep: string, p: int) {
    0 <= p && p + |sep| <= |s| && s[p..p + |sep|] == sep
  }

  lemma SliceOfTail(s: string, a: int, b: int)
    requires 1 <= a <= b <= |s|
    ensures s[a..b] == s[1..][a - 1..b - 1]
  {
    forall i | 0 <= i < b - a ensures s[a..b][i] == s[1..][a - 1..b - 1][i] {
      assert s[a..b][i] == s[a + i] == s[1..][a + i - 1];
    }
  }

  lemma OccursInTail(s: string, sep: string, p: int)
    requires s != "" && p >= 1
    ensures Occurs(s, sep, p) <==> Occurs(s[1..], sep, p - 1)
  {
    if p + |sep| <= |s| {
      SliceOfTail(s, p, p + |sep|);
    }
  }

  /** std::string::find: the first occurrence of sep in s, or -1. */
  function FindIn(s: string, sep: string): (r: int)
    requires sep != ""
    ensures -1 <= r && (r >= 0 ==> r + |sep| <= |s|)
    decreases |s|
  {
    if |s| < |sep| then -1
    else if s[..|sep|] == sep then 0
    else
      var r := FindIn(s[1..], sep);
      if r < 0 then -1 else r + 1
  }

  lemma {:induction false} FindInOccurs(s: string, sep: string)
    requires sep != "" && FindIn(s, sep) >= 0
    ensures Occurs(s, sep, FindIn(s, sep))
    decreases |s|
  {
    if s[..|sep|] != sep {
      FindInOccurs(s[1..], sep);
      OccursInTail(s, sep, FindIn(s[1..], sep) + 1);
    }
  }

  lemma {:induction false} FindInNotLater(s: string, sep: string, p: int)
    requires sep != "" && Occurs(s, sep, p)
    ensures 0 <= FindIn(s, sep) <= p
    decreases |s|
  {
    if s[..|sep|] != sep {
      assert p != 0;
      OccursInTail(s, sep, p);
      FindInNotLater(s[1..], sep, p - 1);
    }
  }

  lemma FindInIsFirst(s: string, sep: string)
    requires sep != ""
    ensures FindIn(s, sep) >= 0 ==> Occurs(s, sep, FindIn(s, sep))
    ensures forall p :: Occurs(s, sep, p) ==> 0 <= FindIn(s, sep) <= p
  {
    if FindIn(s, sep) >= 0 {
      FindInOccurs(s, sep);
    }
    forall p | Occurs(s, sep, p) ensures 0 <= FindIn(s, sep) <= p {
      FindInNotLater(s, sep, p);
    }
  }

  /** find with a start position. */
  function Find(s: string, sep: string, pos: nat): int
    requires sep != "" && pos <= |s|
  {
    var r := FindIn(s[pos..], sep);
    if r < 0 then -1 else pos + r
  }

  /** find_first_not_of: the first character that is not one of `chars`, or -1. */
  function FindFirstNotOf(s: string, chars: string): (r: int)
    ensures -1 <= r < |s|
    decreases |s|
  {
    if s == "" then -1
    else if s[0] !in chars then 0
    else
      var r := FindFirstNotOf(s[1..], chars);
      if r < 0 then -1 else r + 1
  }

  lemma {:induction false} FirstNotOfIsFirst(s: string, chars: string)
    ensures var r := FindFirstNotOf(s, chars);
            && (r >= 0 ==> s[r] !in chars)
            && forall p :: 0 <= p < (if r < 0 then |s| else r) ==> s[p] in chars
    decreases |s|
  {
    if s != "" && s[0] in chars {
      FirstNotOfIsFirst(s[1..], chars);
      var r := FindFirstNotOf(s, chars);
      forall p | 0 <= p < (if r < 0 then |s| else r) ensures s[p] in chars {
        assert p == 0 || s[p] == s[1..][p - 1];
      }
    }
  }

  // -------------------------------------------------------------------- split

  function NonEmpty(s: string): seq<string> {
    if s == "" then [] else [s]
  }

  /** The non-empty pieces of s between occurrences of sep. */
  function Pieces(s: string, sep: string): seq<string>
    requires sep != ""
    decreases |s|
  {
    var c := FindIn(s, sep);
    if c < 0 then NonEmpty(s) else NonEmpty(s[..c]) + Pieces(s[c + |sep|..], sep)
  }

  function SplitSpec(s: string, sep: string): seq<string>
    requires sep != ""
  {
    var p := FindFirstNotOf(s, sep);
    if p < 0 then [] else Pieces(s[p..], sep)
  }

  /** What split still has to deliver at position pos; -1 stands for npos. */
  function Todo(s: string, pos: int, sep: string): seq<string>
    requires sep != "" && -1 <= pos <= |s|
  {
    if pos == -1 then [] else Pieces(s[pos..], sep)
  }

  /** One turn of the loop: the piece cut at `pos` and the position after it. */
  function PieceEnd(s: string, pos: nat, sep: string): (r: (string, int))
    requires sep != "" && pos <= |s|
    ensures r.1 == -1 || pos < r.1 <= |s|
  {
    var c := FindIn(s[pos..], sep);
    if c < 0 then (s[pos..], -1) else (s[pos..][..c], pos + c + |sep|)
  }

  lemma TodoStep(s: string, pos: nat, sep: string)
    requires sep != "" && pos <= |s|
    ensures var e := PieceEnd(s, pos, sep); Todo(s, pos, sep) == NonEmpty(e.0) + Todo(s, e.1, sep)
  {
    var rest := s[pos..];
    var c := FindIn(rest, sep);
    if c >= 0 {
      assert rest[c + |sep|..] == s[pos + c + |sep|..];
    } else {
      assert NonEmpty(rest) + [] == NonEmpty(rest);
    }
  }

  /** The body of the loop: the next piece and where to go on. */
  method NextPiece(str: string, posBegin: nat, sep: string) returns (tmp: string, next: int)
    requires sep != "" && posBegin <= |str|
    ensures (tmp, next) == PieceEnd(str, posBegin, sep)
  {
    assert forall c :: 0 <= c <= |str| - posBegin ==> str[posBegin..][..c] == str[posBegin..posBegin + c];
    var commaPos := Find(str, sep, posBegin);
    if commaPos != -1 {
      tmp := str[posBegin..commaPos];
      next := commaPos + |sep|;
    } else {
      tmp := str[posBegin..];
      next := commaPos;
    }
  }

  /** The loop of split, from a position on. */
  method SplitFrom(str: string, start: int, sep: string) returns (ret: seq<string>)
    requires sep != "" && -1 <= start <= |str|
    ensures ret == Todo(str, start, sep)
  {
    ret := [];
    var posBegin := start;
    ghost var want := Todo(str, start, sep);
    Associative([], want, []);
    while posBegin != -1
      invariant -1 <= posBegin <= |str|
      invariant ret + Todo(str, posBegin, sep) == want
      decreases if posBegin == -1 then 0 else 1 + |str| - posBegin
    {
      TodoStep(str, posBegin, sep);
      var tmp, next := NextPiece(str, posBegin, sep);
      Associative(ret, NonEmpty(tmp), Todo(str, next, sep));
      posBegin := next;
      if tmp != "" {
        ret := ret + [tmp];
      }
    }
  }

  /** StrTool::split.  With an empty separator the source would not terminate. */
  method Split(str: string, sep: string) returns (ret: seq<string>)
    requires sep != ""
    ensures ret == SplitSpec(str, sep)
  {
    if str == "" {
      return [];
    }
    var posBegin := FindFirstNotOf(str, sep);
    ret := SplitFrom(str, posBegin, sep);
  }

  lemma Associative(a: seq<string>, b: seq<string>, c: seq<string>)
    ensures (a + b) + c == a + (b + c)
    ensures a + [] == a && [] + b == b
  {
  }

  // ---------------------------------------------------------------- unquoting

  /** The character loop on a field that starts with a quote. */
  function Unquote(s: string): string
    decreases |s|
  {
    if s == "" then ""
    else if s[0] == QUOTE then
      if |s| > 1 && s[1] == QUOTE then [QUOTE] + Unquote(s[2..]) else Unquote(s[1..])
    else [s[0]] + Unquote(s[1..])
  }

  function DecodeField(f: string): string {
    if f != "" && f[0] == QUOTE then Unquote(f) else f
  }

  function DecodeRow(row: seq<string>): (r: seq<string>)
    ensures |r| == |row| && forall i :: 0 <= i < |r| ==> r[i] == DecodeField(row[i])
  {
    seq(|row|, i requires 0 <= i < |row| => DecodeField(row[i]))
  }

  /** The line separator is guessed from the first line feed. */
  function LineSep(data: string): (r: string)
    ensures r != ""
  {
    var pos := FindIn(data, "\n");
    if pos > 0 && data[pos - 1] == '\r' then "\r\n" else "\n"
  }

  function LoadSpec(data: string, delimiter: string): (r: seq<seq<string>>)
    requires delimiter != ""
  {
    DecodeLines(SplitSpec(data, LineSep(data)), delimiter)
  }

  function DecodeLine(line: string, delimiter: string): seq<string>
    requires delimiter != ""
  {
    DecodeRow(SplitSpec(line, delimiter))
  }

  function DecodeLines(lines: seq<string>, delimiter: string): (r: seq<seq<string>>)
    requires delimiter != ""
    ensures |r| == |lines| && forall i :: 0 <= i < |r| ==> r[i] == DecodeLine(lines[i], delimiter)
  {
    seq(|lines|, i requires 0 <= i < |lines| => DecodeLine(lines[i], delimiter))
  }

  /** At position m of the character loop: what is built and what is to come. */
  ghost predicate Unquoting(newVal: string, f: string, m: nat) {
    m <= |f| && newVal + Unquote(f[m..]) == Unquote(f)
  }

  lemma UnquoteStep(newVal: string, f: string, m: nat)
    requires Unquoting(newVal, f, m) && m < |f|
    ensures f[m] == QUOTE && m + 1 < |f| && f[m + 1] == QUOTE ==> Unquoting(newVal + [QUOTE], f, m + 2)
    ensures f[m] == QUOTE && !(m + 1 < |f| && f[m + 1] == QUOTE) ==> Unquoting(newVal, f, m + 1)
    ensures f[m] != QUOTE ==> Unquoting(newVal + [f[m]], f, m + 1)
  {
    var rest := f[m..];
    assert rest[1..] == f[m + 1..];
    if |rest| > 1 {
      assert rest[2..] == f[m + 2..];
      CharAssociative(newVal, [QUOTE], Unquote(f[m + 2..]));
    }
    CharAssociative(newVal, [f[m]], Unquote(f[m + 1..]));
  }

  lemma CharAssociative(a: string, b: string, c: string)
    ensures (a + b) + c == a + (b + c)
  {
  }

  /** The loop over the characters of one field. */
  method DecodeInPlace(eachField: string) returns (newVal: string)
    ensures newVal == DecodeField(eachField)
  {
    if eachField == "" || eachField[0] != QUOTE {
      return eachField;
    }
    newVal := "";
    var m := 0;
    assert eachField[0..] == eachField;
    while m < |eachField|
      invariant Unquoting(newVal, eachField, m)
    {
      UnquoteStep(newVal, eachField, m);
      if eachField[m] == QUOTE {
        if m + 1 < |eachField| && eachField[m + 1] == QUOTE {
          newVal := newVal + [QUOTE];
          m := m + 1;
        }
      } else {
        newVal := newVal + [eachField[m]];
      }
      m := m + 1;
    }
    assert eachField[m..] == "" && newVal + "" == newVal;
  }

  /** The loop over the fields of one row, which rewrites them in place. */
  method LoadRow(line: string, delimiter: string) returns (row: seq<string>)
    requires delimiter != ""
    ensures row == DecodeLine(line, delimiter)
  {
    row := Split(line, delimiter);
    ghost var raw := row;
    var j := 0;
    while j < |row|
      invariant j <= |row| == |raw|
      invariant forall k :: 0 <= k < j ==> row[k] == DecodeField(raw[k])
      invariant forall k :: j <= k < |row| ==> row[k] == raw[k]
    {
      var field := DecodeInPlace(row[j]);
      row := row[j := field];
      j := j + 1;
    }
  }

  /** The loop over the lines. */
  method LoadLines(allLines: seq<string>, delimiter: string) returns (ret: seq<seq<string>>)
    requires delimiter != ""
    ensures ret == DecodeLines(allLines, delimiter)
  {
    ret := [];
    var i := 0;
    while i < |allLines|
      invariant i <= |allLines| && |ret| == i
      invariant forall k :: 0 <= k < i ==> ret[k] == DecodeLine(allLines[k], delimiter)
    {
      var row := LoadRow(allLines[i], delimiter);
      ret := ret + [row];
      i := i + 1;
    }
  }

  /** StrTool::loadCsvFromString. */
  method LoadCsvFromString(data: string, delimiter: string) returns (ret: seq<seq<string>>)
    requires delimiter != ""
    ensures ret == LoadSpec(data, delimiter)
  {
    var linesep := "\n";
    var pos := FindIn(data, linesep);
    if pos != -1 && pos > 0 && data[pos - 1] == '\r' {
      linesep := "\r\n";
    }
    var allLines := Split(data, linesep);
    ret := LoadLines(allLines, delimiter);
  }

  // ------------------------------------------------------------------ writing

  /** Section 2 of RFC 4180: inner quotes doubled, the field between quotes. */
  function DoubleQuotes(f: string): string {
    if f == "" then "" else (if f[0] == QUOTE then [QUOTE, QUOTE] else [f[0]]) + DoubleQuotes(f[1..])
  }

  function QuoteField(f: string): string {
    [QUOTE] + DoubleQuotes(f) + [QUOTE]
  }

  function QuoteRow(row: seq<string>): (r: seq<string>)
    ensures |r| == |row| && forall i :: 0 <= i < |r| ==> r[i] == QuoteField(row[i])
  {
    seq(|row|, i requires 0 <= i < |row| => QuoteField(row[i]))
  }

  function Join(parts: seq<string>, sep: string): string
    decreases |parts|
  {
    if parts == [] then "" else if |parts| == 1 then parts[0] else parts[0] + sep + Join(parts[1..], sep)
  }

  function Trail(sep: string, trailing: bool): string {
    if trailing then sep else ""
  }

  function WriteRows(table: seq<seq<string>>, delimiter: string): (r: seq<string>)
    ensures |r| == |table| && forall i :: 0 <= i < |r| ==> r[i] == Join(QuoteRow(table[i]), delimiter)
  {
    seq(|table|, i requires 0 <= i < |table| => Join(QuoteRow(table[i]), delimiter))
  }

  /** Lines end in eol; the last line break is optional. */
  function Write(table: seq<seq<string>>, delimiter: string, eol: string, lastBreak: bool): string {
    Join(WriteRows(table, delimiter), eol) + Trail(eol, lastBreak)
  }
}
