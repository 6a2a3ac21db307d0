/** SQL string escaping (fflib/db/ffdb.cpp:119-189) and the literal syntax it aims at. */
module SqlEscape {
  import opened Options

  newtype byte = x: int | 0 <= x < 256

  const NUL: byte := 0
  const LF: byte := 10
  const CR: byte := 13
  const SUB: byte := 26
  const DQUOTE: byte := 34
  const QUOTE: byte := 39
  const ZERO: byte := 48
  const Z: byte := 90
  const BACKSLASH: byte := 92
  const N: byte := 110
  const R: byte := 114

  // ------------------------------------------------------------ specification

  /** The second byte of an escape sequence; 0 for a byte that stands for itself. */
  function EscapeLetter(b: byte): byte {
    if b == NUL then ZERO
    else if b == LF then N
    else if b == CR then R
    else if b == BACKSLASH then BACKSLASH
    else if b == QUOTE then QUOTE
    else if b == DQUOTE then DQUOTE
    else if b == SUB then Z
    else 0
  }

  function EscapeByte(b: byte): (r: seq<byte>)
    ensures 1 <= |r| <= 2
  {
    var e := EscapeLetter(b);
    if e == 0 then [b] else [if e == QUOTE then QUOTE else BACKSLASH, e]
  }

  function Escape(s: seq<byte>): (r: seq<byte>)
    ensures |s| <= |r| <= 2 * |s|
  {
    if s == [] then [] else EscapeByte(s[0]) + Escape(s[1..])
  }

  lemma {:induction false} EscapeConcat(a: seq<byte>, b: seq<byte>)
    ensures Escape(a + b) == Escape(a) + Escape(b)
    decreases |a|
  {
    if a == [] {
      assert a + b == b;
    } else {
      assert (a + b)[1..] == a[1..] + b;
      EscapeConcat(a[1..], b);
    }
  }

  lemma EscapePrefix(s: seq<byte>, i: nat)
    requires i < |s|
    ensures Escape(s[..i + 1]) == Escape(s[..i]) + EscapeByte(s[i])
  {
    assert s[..i + 1] == s[..i] + [s[i]];
    EscapeConcat(s[..i], [s[i]]);
    assert Escape([s[i]]) == EscapeByte(s[i]) + Escape([]);
  }

  lemma EscapeMonotone(s: seq<byte>, i: nat)
    requires i <= |s|
    ensures |Escape(s[..i])| <= |Escape(s)|
  {
    assert s == s[..i] + s[i..];
    EscapeConcat(s[..i], s[i..]);
  }

  // ----------------------------------------------------------------- the code

  /** Room for the text, the terminator not counted. */
  function ToEnd(toLength: nat, length: nat): nat {
    if toLength != 0 then toLength - 1 else 2 * length
  }

  predicate LongestPrefix(from: seq<byte>, i: nat, room: nat)
    requires i < |from|
  {
    |Escape(from[..i])| <= room < |Escape(from[..i + 1])|
  }

  /** The body of escape_string's loop: one source byte, unless it does not fit. */
  method PutByte(dest: array<byte>, start: nat, toEnd: nat, b: byte) returns (to: nat, overflow: bool)
    requires start <= toEnd < dest.Length
    modifies dest
    ensures overflow <==> start + |EscapeByte(b)| > toEnd
    ensures overflow ==> to == start && dest[..] == old(dest[..])
    ensures !overflow ==> to == start + |EscapeByte(b)| && dest[..to] == old(dest[..start]) + EscapeByte(b)
  {
    to := start;
    var escape := EscapeLetter(b);
    if escape != 0 {
      if to + 2 > toEnd {
        return to, true;
      }
      if escape == QUOTE {
        dest[to] := QUOTE;
      } else {
        dest[to] := BACKSLASH;
      }
      to := to + 1;
      dest[to] := escape;
      to := to + 1;
    } else {
      if to + 1 > toEnd {
        return to, true;
      }
      dest[to] := b;
      to := to + 1;
    }
    return to, false;
  }

  /** escape_string: the escaped text and its terminator when they fit; otherwise -1 (None)
      and the escape of the longest prefix that fits. */
  method EscapeString(dest: array<byte>, toLength: nat, from: seq<byte>) returns (r: Option<nat>)
    requires dest.Length > ToEnd(toLength, |from|)
    modifies dest
    ensures r.Some? <==> |Escape(from)| <= ToEnd(toLength, |from|)
    ensures r.Some? ==> r.value == |Escape(from)| && dest[..r.value] == Escape(from) && dest[r.value] == 0
    ensures r.None? ==> exists i :: 0 <= i < |from| && LongestPrefix(from, i, ToEnd(toLength, |from|))
                                 && dest[..|Escape(from[..i])|] == Escape(from[..i]) && dest[|Escape(from[..i])|] == 0
  {
    var to := 0;
    var toEnd := if toLength != 0 then toLength - 1 else 2 * |from|;
    var overflow := false;
    var i := 0;
    while i < |from|
      invariant i <= |from| && !overflow
      invariant to == |Escape(from[..i])| <= toEnd
      invariant dest[..to] == Escape(from[..i])
    {
      EscapePrefix(from, i);
      to, overflow := PutByte(dest, to, toEnd, from[i]);
      if overflow {
        break;
      }
      i := i + 1;
    }
    dest[to] := 0;
    if overflow {
      EscapeMonotone(from, i + 1);
      assert LongestPrefix(from, i, toEnd);
      return None;
    }
    assert from[..|from|] == from;
    return Some(to);
  }

  /** FFDb::escape: the buffer of 2n+2 bytes is always large enough. */
  method FFDbEscape(src: seq<byte>) returns (ret: seq<byte>)
    ensures ret == Escape(src)
  {
    var msg := new byte[|src| * 2 + 2];
    var len := EscapeString(msg, |src| * 2 + 2, src);
    ret := msg[..len.value];
  }

  // -------------------------------------------------------- reading it back

  /** What a backslash sequence stands for in a MySQL string literal. */
  function Unletter(b: byte): seq<byte> {
    if b == ZERO then [NUL]
    else if b == N then [LF]
    else if b == R then [CR]
    else if b == Z then [SUB]
    else if b == 98 then [8]
    else if b == 116 then [9]
    else if b == 37 || b == 95 then [BACKSLASH, b]
    else [b]
  }

  function Prepend(v: seq<byte>, r: Option<(seq<byte>, seq<byte>)>): Option<(seq<byte>, seq<byte>)> {
    if r.None? then None else Some((v + r.value.0, r.value.1))
  }

  /** A MySQL literal after its opening quote: its value and what follows the closing quote. */
  function ScanBody(s: seq<byte>): Option<(seq<byte>, seq<byte>)> {
    if s == [] then None
    else if s[0] == BACKSLASH then
      if |s| == 1 then None else Prepend(Unletter(s[1]), ScanBody(s[2..]))
    else if s[0] == QUOTE then
      if |s| > 1 && s[1] == QUOTE then Prepend([QUOTE], ScanBody(s[2..])) else Some(([], s[1..]))
    else Prepend([s[0]], ScanBody(s[1..]))
  }

  /** A whole literal at the start of s. */
  function ScanLiteral(s: seq<byte>): Option<(seq<byte>, seq<byte>)> {
    if s == [] || s[0] != QUOTE then None else ScanBody(s[1..])
  }

  /** One escaped byte is read back as that byte, whatever follows. */
  lemma ScanByte(b: byte, t: seq<byte>)
    ensures ScanBody(EscapeByte(b) + t) == Prepend([b], ScanBody(t))
  {
    var e := EscapeByte(b);
    assert (e + t)[|e|..] == t;
  }

  lemma PrependTwice(a: byte, v: seq<byte>, r: Option<(seq<byte>, seq<byte>)>)
    requires v != [] && v[0] == a
    ensures Prepend([a], Prepend(v[1..], r)) == Prepend(v, r)
  {
    if r.Some? {
      assert [a] + (v[1..] + r.value.0) == v + r.value.0;
    }
  }

  lemma PrependNothing(r: Option<(seq<byte>, seq<byte>)>)
    ensures Prepend([], r) == r
  {
    if r.Some? {
      assert [] + r.value.0 == r.value.0;
    }
  }

  lemma EscapeCons(v: seq<byte>, t: seq<byte>)
    requires v != []
    ensures Escape(v) + t == EscapeByte(v[0]) + (Escape(v[1..]) + t)
  {
    Associative(EscapeByte(v[0]), Escape(v[1..]), t);
  }

  lemma Associative(a: seq<byte>, b: seq<byte>, c: seq<byte>)
    ensures (a + b) + c == a + (b + c)
  {
  }

  lemma {:induction false} ScanEscaped(v: seq<byte>, t: seq<byte>)
    ensures ScanBody(Escape(v) + t) == Prepend(v, ScanBody(t))
    decreases |v|
  {
    if v == [] {
      assert Escape(v) + t == t;
      PrependNothing(ScanBody(t));
    } else {
      EscapeCons(v, t);
      ScanByte(v[0], Escape(v[1..]) + t);
      ScanEscaped(v[1..], t);
      PrependTwice(v[0], v, ScanBody(t));
    }
  }

  /** Quoting an escaped string: the reader stops at exactly the closing quote and yields the
      string, unless the text behind the literal itself starts with a quote. */
  lemma LiteralRoundTrip(v: seq<byte>, rest: seq<byte>)
    ensures ScanLiteral([QUOTE] + Escape(v) + [QUOTE] + rest) == Some((v, rest))
            <==> (rest == [] || rest[0] != QUOTE)
  {
    var t := [QUOTE] + rest;
    assert ([QUOTE] + Escape(v) + [QUOTE] + rest)[1..] == Escape(v) + t;
    ScanEscaped(v, t);
    if rest == [] || rest[0] != QUOTE {
      assert t[1..] == rest;
      assert v + [] == v;
    } else if ScanBody(t).Some? {
      assert ScanBody(t) == Prepend([QUOTE], ScanBody(t[2..]));
      assert |ScanBody(t).value.0| >= 1;
    }
  }

  /** Escaping loses nothing: different strings have different escapes. */
  lemma EscapeInjective(a: seq<byte>, b: seq<byte>)
    requires Escape(a) == Escape(b)
    ensures a == b
  {
    LiteralRoundTrip(a, []);
    LiteralRoundTrip(b, []);
  }

  // ---------------------------------------------------------- other readers

  /** A literal in quotes q after its opening quote, with or without backslash sequences: standard
      SQL knows only the doubled quote; MySQL also takes text in double quotes. */
  function Read(q: byte, slash: bool, s: seq<byte>): Option<(seq<byte>, seq<byte>)> {
    if s == [] then None
    else if slash && s[0] == BACKSLASH then
      if |s| == 1 then None else Prepend(Unletter(s[1]), Read(q, slash, s[2..]))
    else if s[0] == q then
      if |s| > 1 && s[1] == q then Prepend([q], Read(q, slash, s[2..])) else Some(([], s[1..]))
    else Prepend([s[0]], Read(q, slash, s[1..]))
  }

  /** A MySQL reader of either quote, or a standard one of single quotes. */
  predicate Reader(q: byte, slash: bool) {
    q == QUOTE || (q == DQUOTE && slash)
  }

  /** What such a reader makes of one escaped byte. */
  function Seen(q: byte, slash: bool, b: byte): (r: seq<byte>)
    ensures r != []
  {
    if b == QUOTE then (if q == QUOTE then [QUOTE] else [QUOTE, QUOTE])
    else if slash then [b] else EscapeByte(b)
  }

  function AllSeen(q: byte, slash: bool, v: seq<byte>): seq<byte> {
    if v == [] then [] else Seen(q, slash, v[0]) + AllSeen(q, slash, v[1..])
  }

  lemma ReadPlain(q: byte, slash: bool, b: byte, t: seq<byte>)
    requires b != q && (slash ==> b != BACKSLASH)
    ensures Read(q, slash, [b] + t) == Prepend([b], Read(q, slash, t))
  {
    assert ([b] + t)[1..] == t;
  }

  lemma ReadPair(q: byte, slash: bool, a: byte, b: byte, t: seq<byte>)
    ensures slash && a == BACKSLASH ==> Read(q, slash, [a, b] + t) == Prepend(Unletter(b), Read(q, slash, t))
    ensures q != BACKSLASH && a == b == q ==> Read(q, slash, [a, b] + t) == Prepend([q], Read(q, slash, t))
  {
    assert ([a, b] + t)[2..] == t;
  }

  lemma ReadTwo(q: byte, slash: bool, a: byte, b: byte, t: seq<byte>)
    requires a != q && b != q && (slash ==> a != BACKSLASH && b != BACKSLASH)
    ensures Read(q, slash, [a, b] + t) == Prepend([a, b], Read(q, slash, t))
  {
    ReadPlain(q, slash, b, t);
    ReadPlain(q, slash, a, [b] + t);
    assert [a, b] + t == [a] + ([b] + t);
    PrependTwice(a, [a, b], Read(q, slash, t));
    assert [a, b][1..] == [b];
  }

  lemma ReadByte(q: byte, slash: bool, b: byte, t: seq<byte>)
    requires Reader(q, slash)
    ensures Read(q, slash, EscapeByte(b) + t) == Prepend(Seen(q, slash, b), Read(q, slash, t))
  {
    var e := EscapeByte(b);
    if |e| == 1 {
      ReadPlain(q, slash, b, t);
    } else if b == QUOTE && q == DQUOTE {
      ReadTwo(q, slash, QUOTE, QUOTE, t);
    } else if slash || b == QUOTE {
      ReadPair(q, slash, e[0], e[1], t);
      assert e == [e[0], e[1]];
    } else {
      ReadTwo(q, slash, e[0], e[1], t);
      assert e == [e[0], e[1]];
    }
  }

  lemma PrependMore(a: seq<byte>, b: seq<byte>, r: Option<(seq<byte>, seq<byte>)>)
    ensures Prepend(a, Prepend(b, r)) == Prepend(a + b, r)
  {
    if r.Some? {
      Associative(a, b, r.value.0);
    }
  }

  lemma {:induction false} ReadEscaped(q: byte, slash: bool, v: seq<byte>, t: seq<byte>)
    requires Reader(q, slash)
    ensures Read(q, slash, Escape(v) + t) == Prepend(AllSeen(q, slash, v), Read(q, slash, t))
    decreases |v|
  {
    if v == [] {
      assert Escape(v) + t == t;
      PrependNothing(Read(q, slash, t));
    } else {
      EscapeCons(v, t);
      ReadByte(q, slash, v[0], Escape(v[1..]) + t);
      ReadEscaped(q, slash, v[1..], t);
      PrependMore(Seen(q, slash, v[0]), AllSeen(q, slash, v[1..]), Read(q, slash, t));
    }
  }

  /** No text ends its literal early, or late: every reader stops at exactly the closing quote,
      unless the text behind the literal starts with a quote. */
  lemma LiteralIsClosedIff(q: byte, slash: bool, v: seq<byte>, rest: seq<byte>)
    requires Reader(q, slash)
    ensures Read(q, slash, Escape(v) + ([q] + rest)) == Some((AllSeen(q, slash, v), rest)) <==> (rest == [] || rest[0] != q)
  {
    var t := [q] + rest;
    ReadEscaped(q, slash, v, t);
    assert t[1..] == rest;
    if rest == [] || rest[0] != q {
      assert AllSeen(q, slash, v) + [] == AllSeen(q, slash, v);
    } else if Read(q, slash, t).Some? {
      assert Read(q, slash, t) == Prepend([q], Read(q, slash, t[2..]));
      assert |Read(q, slash, t).value.0| >= 1;
    }
  }

  /** What the readers see: in single quotes MySQL sees the text; a standard reader sees it if no
      byte but quotes is escaped. */
  lemma {:induction false} SeenAsItself(slash: bool, v: seq<byte>)
    requires slash || forall i :: 0 <= i < |v| ==> v[i] !in {NUL, LF, CR, SUB, DQUOTE, BACKSLASH}
    ensures AllSeen(QUOTE, slash, v) == v
  {
    if v != [] {
      SeenAsItself(slash, v[1..]);
      assert v == [v[0]] + v[1..];
    }
  }

  /** The escaped text has none of the bytes that end a string or a line. */
  lemma {:induction false} EscapedIsPlain(v: seq<byte>, b: byte)
    requires b in {NUL, LF, CR, SUB}
    ensures b !in Escape(v)
  {
    if v != [] {
      EscapedIsPlain(v[1..], b);
      assert b !in EscapeByte(v[0]);
    }
  }
}
