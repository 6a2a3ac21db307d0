/** Splitting undoes joining, and a written table loads back (fflib/base/str_tool.h:28-60 and 115-152). */
module CsvLaws {
  import opened Csv

  // --------------------------------------------------------- split and join

  predicate Contains(s: string, sep: string)
    requires sep != ""
  {
    FindIn(s, sep) >= 0
  }

  /** Not empty, and the last character is none of sep's. */
  predicate Closed(s: string, sep: string) {
    s != "" && s[|s| - 1] !in sep
  }

  predicate Sealed(s: string, sep: string) {
    Closed(s, sep) && s[0] !in sep
  }

  predicate AllSealed(parts: seq<string>, sep: string) {
    forall i :: 0 <= i < |parts| ==> Sealed(parts[i], sep)
  }

  predicate NoneContains(parts: seq<string>, sep: string)
    requires sep != ""
  {
    forall i :: 0 <= i < |parts| ==> !Contains(parts[i], sep)
  }

  lemma OccursInPrefix(q: string, tail: string, sep: string, p: nat)
    requires sep != "" && Closed(q, sep) && p < |q|
    ensures Occurs(q + tail, sep, p) <==> Occurs(q, sep, p)
  {
    var s := q + tail;
    if p + |sep| <= |q| {
      assert s[p..p + |sep|] == q[p..p + |sep|];
    } else if p + |sep| <= |s| {
      assert s[p..p + |sep|][|q| - 1 - p] == q[|q| - 1];
    }
  }

  /** No occurrence starts in a closed text and ends after it. */
  lemma FindInClosed(q: string, tail: string, sep: string)
    requires sep != "" && Closed(q, sep) && Contains(q, sep)
    ensures FindIn(q + tail, sep) == FindIn(q, sep)
  {
    var s := q + tail;
    FindInIsFirst(q, sep);
    FindInIsFirst(s, sep);
    OccursInPrefix(q, tail, sep, FindIn(q, sep));
    assert Occurs(s, sep, FindIn(s, sep));
    OccursInPrefix(q, tail, sep, FindIn(s, sep));
  }

  lemma FindAfterClosed(q: string, sep: string, rest: string)
    requires sep != "" && Closed(q, sep) && !Contains(q, sep)
    ensures FindIn(q + (sep + rest), sep) == |q|
  {
    var s := q + (sep + rest);
    assert s[|q|..|q| + |sep|] == sep;
    assert Occurs(s, sep, |q|);
    FindInIsFirst(q, sep);
    FindInIsFirst(s, sep);
    if FindIn(s, sep) < |q| {
      OccursInPrefix(q, sep + rest, sep, FindIn(s, sep));
    }
  }

  lemma OccurrenceCharacters(s: string, sep: string, p: nat, c: char)
    requires Occurs(s, sep, p) && c in sep
    ensures c in s
  {
    var k :| 0 <= k < |sep| && sep[k] == c;
    assert s[p + k] == s[p..p + |sep|][k];
  }

  lemma FindWithout(s: string, sep: string, c: char)
    requires sep != "" && c in sep && c !in s
    ensures !Contains(s, sep)
  {
    FindInIsFirst(s, sep);
    var r := FindIn(s, sep);
    if r >= 0 {
      OccurrenceCharacters(s, sep, r, c);
    }
  }

  lemma CutAt(q: string, tail: string, n: nat)
    requires n <= |q|
    ensures (q + tail)[..n] == q[..n] && (q + tail)[n..] == q[n..] + tail
  {
  }

  lemma PiecesStep(s: string, sep: string, c: nat)
    requires sep != "" && FindIn(s, sep) == c && c + |sep| <= |s|
    ensures Pieces(s, sep) == NonEmpty(s[..c]) + Pieces(s[c + |sep|..], sep)
  {
  }

  lemma PiecesCut(s: string, sep: string, head: string, rest: string)
    requires sep != "" && FindIn(s, sep) == |head| && |head| + |sep| <= |s|
    requires s[..|head|] == head && s[|head| + |sep|..] == rest
    ensures Pieces(s, sep) == NonEmpty(head) + Pieces(rest, sep)
  {
    PiecesStep(s, sep, |head|);
  }

  lemma CutAfter(q: string, sep: string, rest: string)
    ensures (q + (sep + rest))[..|q|] == q && (q + (sep + rest))[|q| + |sep|..] == rest
  {
  }

  lemma ClosedEnds(q: string, sep: string, rest: string)
    requires sep != "" && Closed(q, sep) && !Contains(q, sep)
    ensures Pieces(q + (sep + rest), sep) == Pieces(q, sep) + Pieces(rest, sep)
  {
    FindAfterClosed(q, sep, rest);
    CutAfter(q, sep, rest);
    PiecesCut(q + (sep + rest), sep, q, rest);
    assert Pieces(q, sep) == NonEmpty(q);
  }

  lemma ClosedCut(q: string, tail: string, sep: string)
    requires sep != "" && Closed(q, sep) && Contains(q, sep)
    ensures var c := FindIn(q, sep); Pieces(q + tail, sep) == NonEmpty(q[..c]) + Pieces(q[c + |sep|..] + tail, sep)
  {
    var c := FindIn(q, sep);
    FindInClosed(q, tail, sep);
    CutAt(q, tail, c);
    CutAt(q, tail, c + |sep|);
    PiecesCut(q + tail, sep, q[..c], q[c + |sep|..] + tail);
  }

  lemma ClosedGoesOn(q: string, tail: string, sep: string)
    requires sep != "" && Closed(q, sep) && Contains(q, sep)
    ensures var head := NonEmpty(q[..FindIn(q, sep)]);
            var after := q[FindIn(q, sep) + |sep|..];
            && Closed(after, sep)
            && Pieces(q, sep) == head + Pieces(after, sep)
            && Pieces(q + tail, sep) == head + Pieces(after + tail, sep)
  {
    var c := FindIn(q, sep);
    var after := q[c + |sep|..];
    RestIsClosed(q, sep);
    PiecesCut(q, sep, q[..c], after);
    ClosedCut(q, tail, sep);
  }

  lemma Regrouped(all: seq<string>, mid: seq<string>, first: seq<string>, head: seq<string>, a: seq<string>, b: seq<string>)
    requires all == head + mid && mid == a + b && first == head + a
    ensures all == first + b
  {
  }

  lemma ConcatStep(q: string, sep: string, rest: string, after: string)
    requires sep != "" && Closed(q, sep) && Contains(q, sep) && after == q[FindIn(q, sep) + |sep|..]
    requires Pieces(after + (sep + rest), sep) == Pieces(after, sep) + Pieces(rest, sep)
    ensures Pieces(q + (sep + rest), sep) == Pieces(q, sep) + Pieces(rest, sep)
  {
    var head := NonEmpty(q[..FindIn(q, sep)]);
    ClosedGoesOn(q, sep + rest, sep);
    Regrouped(Pieces(q + (sep + rest), sep), Pieces(after + (sep + rest), sep), Pieces(q, sep), head, Pieces(after, sep), Pieces(rest, sep));
  }

  /** The pieces of a closed text, a separator and more are its pieces and the pieces of the rest. */
  lemma {:induction false} PiecesConcat(q: string, sep: string, rest: string)
    requires sep != "" && Closed(q, sep)
    ensures Pieces(q + (sep + rest), sep) == Pieces(q, sep) + Pieces(rest, sep)
    decreases |q|
  {
    if !Contains(q, sep) {
      ClosedEnds(q, sep, rest);
    } else {
      var after := q[FindIn(q, sep) + |sep|..];
      RestIsClosed(q, sep);
      PiecesConcat(after, sep, rest);
      ConcatStep(q, sep, rest, after);
    }
  }

  lemma RestIsClosed(q: string, sep: string)
    requires sep != "" && Closed(q, sep) && Contains(q, sep)
    ensures Closed(q[FindIn(q, sep) + |sep|..], sep)
  {
    FindInIsFirst(q, sep);
    var c := FindIn(q, sep);
    assert q[c..c + |sep|][|sep| - 1] == sep[|sep| - 1] && sep[|sep| - 1] in sep;
  }

  lemma {:induction false} ClosedHasAPiece(q: string, sep: string)
    requires sep != "" && Closed(q, sep)
    ensures Pieces(q, sep) != []
    decreases |q|
  {
    if Contains(q, sep) {
      RestIsClosed(q, sep);
      ClosedHasAPiece(q[FindIn(q, sep) + |sep|..], sep);
    }
  }

  lemma FirstCharacter(q: string, sep: string, p: int)
    requires sep != "" && Occurs(q, sep, p) && q[0] !in sep
    ensures p != 0
  {
    assert q[p] == q[p..p + |sep|][0] && sep[0] in sep;
  }

  /** A sealed text is one piece exactly when the separator does not occur in it. */
  lemma OnePieceIff(q: string, sep: string)
    requires sep != "" && Sealed(q, sep)
    ensures if Contains(q, sep) then |Pieces(q, sep)| > 1 else Pieces(q, sep) == [q]
  {
    if Contains(q, sep) {
      FindInIsFirst(q, sep);
      var c := FindIn(q, sep);
      FirstCharacter(q, sep, c);
      RestIsClosed(q, sep);
      ClosedHasAPiece(q[c + |sep|..], sep);
      PiecesCut(q, sep, q[..c], q[c + |sep|..]);
    }
  }

  lemma JoinTail(parts: seq<string>, sep: string, tail: string)
    requires |parts| > 1
    ensures Join(parts, sep) + tail == parts[0] + (sep + (Join(parts[1..], sep) + tail))
  {
  }

  lemma PiecesOfOne(part: string, sep: string, trailing: bool)
    requires sep != "" && Closed(part, sep)
    ensures Pieces(part + Trail(sep, trailing), sep) == Pieces(part, sep)
  {
    if trailing {
      PiecesConcat(part, sep, "");
      assert sep + "" == sep;
      assert FindIn("", sep) < 0;
      Associative(Pieces(part, sep), [], []);
    } else {
      assert part + "" == part;
    }
  }

  /** The parts themselves, unless one of them holds the separator: then more pieces than parts. */
  predicate SplitsInto(pieces: seq<string>, parts: seq<string>, sep: string)
    requires sep != ""
  {
    if NoneContains(parts, sep) then pieces == parts else |pieces| > |parts|
  }

  lemma SplitsIntoMore(first: seq<string>, pieces: seq<string>, parts: seq<string>, sep: string)
    requires sep != "" && parts != [] && first != []
    requires SplitsInto(first, parts[..1], sep) && SplitsInto(pieces, parts[1..], sep)
    ensures SplitsInto(first + pieces, parts, sep)
  {
    NoneContainsTail(parts, sep);
    assert parts[..1] + parts[1..] == parts;
  }

  lemma FirstPart(parts: seq<string>, sep: string)
    requires sep != "" && AllSealed(parts, sep) && parts != []
    ensures SplitsInto(Pieces(parts[0], sep), parts[..1], sep) && Pieces(parts[0], sep) != []
  {
    OnePieceIff(parts[0], sep);
    ClosedHasAPiece(parts[0], sep);
    assert parts[..1] == [parts[0]];
  }

  /** What split makes of joined sealed parts. */
  lemma {:induction false} PiecesOfJoin(parts: seq<string>, sep: string, trailing: bool)
    requires sep != "" && AllSealed(parts, sep) && parts != []
    ensures SplitsInto(Pieces(Join(parts, sep) + Trail(sep, trailing), sep), parts, sep)
    decreases |parts|
  {
    FirstPart(parts, sep);
    if |parts| == 1 {
      PiecesOfOne(parts[0], sep, trailing);
      assert parts == parts[..1];
    } else {
      var rest := Join(parts[1..], sep) + Trail(sep, trailing);
      JoinTail(parts, sep, Trail(sep, trailing));
      PiecesConcat(parts[0], sep, rest);
      PiecesOfJoin(parts[1..], sep, trailing);
      SplitsIntoMore(Pieces(parts[0], sep), Pieces(rest, sep), parts, sep);
    }
  }

  lemma NoneContainsTail(parts: seq<string>, sep: string)
    requires sep != "" && parts != []
    ensures NoneContains(parts, sep) <==> NoneContains(parts[..1], sep) && NoneContains(parts[1..], sep)
  {
    assert parts == parts[..1] + parts[1..];
  }

  lemma JoinStarts(parts: seq<string>, sep: string)
    requires parts != [] && parts[0] != ""
    ensures Join(parts, sep) != "" && Join(parts, sep)[0] == parts[0][0]
  {
  }

  lemma NothingInSeparators(sep: string, trailing: bool)
    requires sep != ""
    ensures SplitSpec(Trail(sep, trailing), sep) == []
  {
    FirstNotOfIsFirst(Trail(sep, trailing), sep);
  }

  /** On sealed parts split undoes join, or gives more pieces if a part holds the separator. */
  lemma SealedPartsSplit(parts: seq<string>, sep: string, trailing: bool)
    requires sep != "" && AllSealed(parts, sep)
    ensures SplitsInto(SplitSpec(Join(parts, sep) + Trail(sep, trailing), sep), parts, sep)
  {
    var s := Join(parts, sep) + Trail(sep, trailing);
    if parts == [] {
      assert s == Trail(sep, trailing);
      NothingInSeparators(sep, trailing);
    } else {
      JoinStarts(parts, sep);
      assert s[0] == parts[0][0];
      assert FindFirstNotOf(s, sep) == 0;
      assert s[0..] == s;
      PiecesOfJoin(parts, sep, trailing);
    }
  }

  // ----------------------------------------------------------- any parts at all

  /** The separator behind the part is where the search from its start ends. */
  predicate EndsAtSeparator(part: string, sep: string)
    requires sep != ""
  {
    FindIn(part + sep, sep) == |part|
  }

  /** No part is empty, each but the last ends where the separator is found, the last holds
      none, and the first does not start with a character of the separator. */
  predicate Splittable(parts: seq<string>, sep: string)
    requires sep != ""
  {
    && (forall i :: 0 <= i < |parts| ==> parts[i] != "")
    && (forall i :: 0 <= i < |parts| - 1 ==> EndsAtSeparator(parts[i], sep))
    && (parts != [] ==> !Contains(parts[|parts| - 1], sep) && parts[0][0] !in sep)
  }

  /** What follows the separator does not matter to the search. */
  lemma FindUpTo(part: string, sep: string, rest: string)
    requires sep != ""
    ensures FindIn(part + (sep + rest), sep) == FindIn(part + sep, sep) && 0 <= FindIn(part + sep, sep) <= |part|
  {
    var s, t := part + (sep + rest), part + sep;
    assert s == t + rest;
    assert t[|part|..|part| + |sep|] == sep;
    assert Occurs(t, sep, |part|);
    FindInIsFirst(t, sep);
    FindInIsFirst(s, sep);
    SameOccurrence(t, rest, sep, FindIn(t, sep));
    SameOccurrence(t, rest, sep, FindIn(s, sep));
  }

  lemma SameOccurrence(t: string, rest: string, sep: string, p: int)
    requires 0 <= p && p + |sep| <= |t|
    ensures Occurs(t + rest, sep, p) <==> Occurs(t, sep, p)
  {
    assert (t + rest)[p..p + |sep|] == t[p..p + |sep|];
  }

  /** Joining the pieces of a text gives nothing longer than the text. */
  lemma {:induction false} PiecesFit(s: string, sep: string)
    requires sep != ""
    ensures |Join(Pieces(s, sep), sep)| <= |s|
    ensures forall i :: 0 <= i < |Pieces(s, sep)| ==> Pieces(s, sep)[i] != ""
    decreases |s|
  {
    var c := FindIn(s, sep);
    if c >= 0 {
      var rest := s[c + |sep|..];
      PiecesFit(rest, sep);
      JoinMore(NonEmpty(s[..c]), Pieces(rest, sep), sep);
    }
  }

  lemma JoinMore(head: seq<string>, tail: seq<string>, sep: string)
    requires |head| <= 1
    ensures |Join(head + tail, sep)| <= (if head == [] then 0 else |head[0]| + |sep|) + |Join(tail, sep)|
  {
    if head == [] {
      assert head + tail == tail;
    } else {
      assert (head + tail)[0] == head[0] && (head + tail)[1..] == tail;
    }
  }

  lemma JoinStep(parts: seq<string>, sep: string)
    requires |parts| > 1
    ensures Join(parts, sep) == parts[0] + (sep + Join(parts[1..], sep))
  {
  }

  lemma CutInside(part: string, sep: string, rest: string, c: nat)
    requires c <= |part|
    ensures var s := part + (sep + rest);
            c + |sep| <= |s| && s[..c] == part[..c] && (c == |part| ==> s[c + |sep|..] == rest)
  {
  }

  lemma PiecesOfTwo(part: string, sep: string, rest: string)
    requires sep != ""
    ensures var c := FindIn(part + sep, sep);
            var s := part + (sep + rest);
            && 0 <= c <= |part| && c + |sep| <= |s|
            && Pieces(s, sep) == NonEmpty(part[..c]) + Pieces(s[c + |sep|..], sep)
            && (c == |part| ==> s[c + |sep|..] == rest)
  {
    FindUpTo(part, sep, rest);
    var c := FindIn(part + sep, sep);
    CutInside(part, sep, rest, c);
    PiecesCut(part + (sep + rest), sep, part[..c], (part + (sep + rest))[c + |sep|..]);
  }

  /** Shorter pieces of a text are not the parts of a longer one. */
  lemma TooShort(s: string, parts: seq<string>, sep: string)
    requires sep != "" && |s| < |Join(parts, sep)|
    ensures Pieces(s, sep) != parts
  {
    PiecesFit(s, sep);
  }

  predicate Aligned(parts: seq<string>, sep: string)
    requires sep != ""
  {
    && (forall i :: 0 <= i < |parts| ==> parts[i] != "")
    && (forall i :: 0 <= i < |parts| - 1 ==> EndsAtSeparator(parts[i], sep))
    && (parts != [] ==> !Contains(parts[|parts| - 1], sep))
  }

  lemma AlignedTail(parts: seq<string>, sep: string)
    requires sep != "" && |parts| > 1
    ensures Aligned(parts, sep) <==> parts[0] != "" && EndsAtSeparator(parts[0], sep) && Aligned(parts[1..], sep)
  {
    var rest := parts[1..];
    assert forall i :: 0 <= i < |rest| ==> rest[i] == parts[i + 1];
    if parts[0] != "" && EndsAtSeparator(parts[0], sep) && Aligned(rest, sep) {
      assert forall i :: 0 < i < |parts| ==> parts[i] == rest[i - 1];
    }
  }

  lemma CutPieces(part: string, sep: string)
    requires sep != "" && Contains(part, sep)
    ensures Pieces(part, sep) != [part]
  {
    var c := FindIn(part, sep);
    var rest := part[c + |sep|..];
    if c > 0 {
      assert Pieces(part, sep)[0] == part[..c];
    } else {
      assert Pieces(part, sep) == Pieces(rest, sep);
      TooShort(rest, [part], sep);
    }
  }

  lemma LastPieceIff(part: string, sep: string)
    requires sep != ""
    ensures Pieces(part, sep) == [part] <==> part != "" && !Contains(part, sep)
  {
    if Contains(part, sep) {
      CutPieces(part, sep);
    }
  }

  lemma {:induction false} PiecesUndoJoinIff(parts: seq<string>, sep: string)
    requires sep != "" && parts != []
    ensures Pieces(Join(parts, sep), sep) == parts <==> Aligned(parts, sep)
    decreases |parts|
  {
    if |parts| == 1 {
      LastPieceIff(parts[0], sep);
      assert parts == [parts[0]];
    } else {
      PiecesUndoJoinIff(parts[1..], sep);
      FirstPieceIff(parts, sep);
      AlignedTail(parts, sep);
    }
  }

  lemma OtherFirst(first: string, pieces: seq<string>, parts: seq<string>)
    requires first != "" && parts != [] && |first| < |parts[0]|
    ensures NonEmpty(first) + pieces != parts
  {
    assert (NonEmpty(first) + pieces)[0] == first;
  }

  lemma BreaksEarly(s: string, first: string, rest: string, parts: seq<string>, sep: string)
    requires sep != "" && parts != [] && |first| < |parts[0]|
    requires Pieces(s, sep) == NonEmpty(first) + Pieces(rest, sep) && |rest| < |Join(parts, sep)|
    ensures Pieces(s, sep) != parts
  {
    if first == "" {
      Associative([], Pieces(rest, sep), []);
      TooShort(rest, parts, sep);
    } else {
      OtherFirst(first, Pieces(rest, sep), parts);
    }
  }

  lemma BreaksInside(part: string, sep: string, rest: string, parts: seq<string>)
    requires sep != "" && parts != [] && parts[0] == part && Join(parts, sep) == part + (sep + rest) && !EndsAtSeparator(part, sep)
    ensures Pieces(part + (sep + rest), sep) != parts
  {
    var c := FindIn(part + sep, sep);
    PiecesOfTwo(part, sep, rest);
    BreaksEarly(part + (sep + rest), part[..c], (part + (sep + rest))[c + |sep|..], parts, sep);
  }

  /** A separator found inside the first part: other pieces. */
  lemma FirstPieceBreaks(parts: seq<string>, sep: string)
    requires sep != "" && |parts| > 1 && !EndsAtSeparator(parts[0], sep)
    ensures Pieces(Join(parts, sep), sep) != parts
  {
    JoinStep(parts, sep);
    BreaksInside(parts[0], sep, Join(parts[1..], sep), parts);
  }

  lemma FirstPieceEnds(parts: seq<string>, sep: string)
    requires sep != "" && |parts| > 1 && EndsAtSeparator(parts[0], sep)
    ensures Pieces(Join(parts, sep), sep) == NonEmpty(parts[0]) + Pieces(Join(parts[1..], sep), sep)
  {
    JoinStep(parts, sep);
    PiecesOfTwo(parts[0], sep, Join(parts[1..], sep));
    assert parts[0][..|parts[0]|] == parts[0];
  }

  lemma FirstPieceIff(parts: seq<string>, sep: string)
    requires sep != "" && |parts| > 1
    ensures Pieces(Join(parts, sep), sep) == parts <==>
            parts[0] != "" && EndsAtSeparator(parts[0], sep) && Pieces(Join(parts[1..], sep), sep) == parts[1..]
  {
    if !EndsAtSeparator(parts[0], sep) {
      FirstPieceBreaks(parts, sep);
    } else {
      FirstPieceEnds(parts, sep);
      ConsIff(parts[0], Pieces(Join(parts[1..], sep), sep), parts);
      if parts[0] == "" {
        PiecesFit(Join(parts, sep), sep);
      }
    }
  }

  lemma ConsIff(first: string, ps: seq<string>, parts: seq<string>)
    requires parts != [] && parts[0] == first
    ensures [first] + ps == parts <==> ps == parts[1..]
  {
    assert parts == [first] + parts[1..];
    assert ([first] + ps)[1..] == ps;
  }

  /** For any parts: split undoes join exactly when they are splittable. */
  lemma SplitUndoesJoinIff(parts: seq<string>, sep: string)
    requires sep != ""
    ensures SplitSpec(Join(parts, sep), sep) == parts <==> Splittable(parts, sep)
  {
    var s := Join(parts, sep);
    var p := FindFirstNotOf(s, sep);
    if parts != [] {
      PiecesUndoJoinIff(parts, sep);
      FirstNotOfIsFirst(s, sep);
      if p == 0 {
        assert s[0..] == s;
        StartsOutside(parts, sep);
      } else {
        if p > 0 {
          TooShort(s[p..], parts, sep);
        }
        StartsInside(parts, sep);
      }
    }
  }

  lemma StartsOutside(parts: seq<string>, sep: string)
    requires sep != "" && parts != [] && Join(parts, sep) != "" && Join(parts, sep)[0] !in sep
    ensures Splittable(parts, sep) <==> Aligned(parts, sep)
  {
    if parts[0] != "" {
      JoinStarts(parts, sep);
    }
  }

  lemma StartsInside(parts: seq<string>, sep: string)
    requires sep != "" && parts != [] && (Join(parts, sep) == "" || Join(parts, sep)[0] in sep)
    ensures !Splittable(parts, sep)
  {
    if parts[0] != "" {
      JoinStarts(parts, sep);
    }
  }

  // ------------------------------------------------------- quoted round trip

  function Quotes(k: nat): string {
    if k == 0 then "" else [QUOTE] + Quotes(k - 1)
  }

  /** A run of k quotes decodes to k / 2 of them. */
  lemma {:induction false} RunOfQuotes(k: nat, rest: string)
    requires rest == "" || rest[0] != QUOTE
    ensures Unquote(Quotes(k) + rest) == Quotes(k / 2) + Unquote(rest)
  {
    if k == 0 {
      assert Quotes(0) + rest == rest && Quotes(0) + Unquote(rest) == Unquote(rest);
    } else if k == 1 {
      assert (Quotes(1) + rest)[1..] == rest && Quotes(0) + Unquote(rest) == Unquote(rest);
      assert Quotes(1) == [QUOTE] + Quotes(0);
    } else {
      RunOfQuotes(k - 2, rest);
      TwoQuotes(k, rest);
      UnquotePair(Quotes(k - 2) + rest);
      HalfQuotes(k, Unquote(rest));
    }
  }

  lemma TwoQuotes(k: nat, rest: string)
    requires k >= 2
    ensures Quotes(k) + rest == [QUOTE, QUOTE] + (Quotes(k - 2) + rest)
  {
    assert Quotes(k) == [QUOTE] + ([QUOTE] + Quotes(k - 2));
  }

  lemma OneQuote(h: nat, u: string)
    requires h > 0
    ensures Quotes(h) + u == [QUOTE] + (Quotes(h - 1) + u)
  {
    CharAssociative([QUOTE], Quotes(h - 1), u);
  }

  lemma HalfQuotes(k: nat, u: string)
    requires k >= 2
    ensures Quotes(k / 2) + u == [QUOTE] + (Quotes((k - 2) / 2) + u)
  {
    var h := k / 2;
    assert (k - 2) / 2 == h - 1;
    OneQuote(h, u);
  }

  predicate OnlyQuotes(f: string) {
    forall c :: c in f ==> c == QUOTE
  }

  lemma {:induction false} UnquoteClosing(g: string)
    ensures Unquote(DoubleQuotes(g) + [QUOTE]) == g
    decreases |g|
  {
    if g == "" {
      assert DoubleQuotes(g) + [QUOTE] == [QUOTE];
    } else {
      UnquoteClosing(g[1..]);
      DoubleStep(g);
      assert [g[0]] + g[1..] == g;
    }
  }

  lemma UnquotePlain(c: char, rest: string)
    requires c != QUOTE
    ensures Unquote([c] + rest) == [c] + Unquote(rest)
    ensures Unquote([QUOTE] + ([c] + rest)) == [c] + Unquote(rest)
  {
    assert ([c] + rest)[1..] == rest;
    assert ([QUOTE] + ([c] + rest))[1..] == [c] + rest;
  }

  lemma UnquotePair(rest: string)
    ensures Unquote([QUOTE, QUOTE] + rest) == [QUOTE] + Unquote(rest)
  {
    assert ([QUOTE, QUOTE] + rest)[2..] == rest;
  }

  lemma DoubleStep(g: string)
    requires g != ""
    ensures var rest := DoubleQuotes(g[1..]) + [QUOTE];
            && Unquote(DoubleQuotes(g) + [QUOTE]) == [g[0]] + Unquote(rest)
            && (g[0] != QUOTE ==> Unquote(QuoteField(g)) == [g[0]] + Unquote(rest))
  {
    var rest := DoubleQuotes(g[1..]) + [QUOTE];
    if g[0] == QUOTE {
      assert DoubleQuotes(g) + [QUOTE] == [QUOTE, QUOTE] + rest;
      UnquotePair(rest);
    } else {
      assert DoubleQuotes(g) + [QUOTE] == [g[0]] + rest;
      assert QuoteField(g) == [QUOTE] + ([g[0]] + rest);
      UnquotePlain(g[0], rest);
    }
  }

  lemma QuoteStep(g: string)
    requires g != "" && g[0] == QUOTE
    ensures Unquote(QuoteField(g)) == [QUOTE] + Unquote(QuoteField(g[1..]))
  {
    assert QuoteField(g) == [QUOTE, QUOTE] + QuoteField(g[1..]);
    UnquotePair(QuoteField(g[1..]));
  }

  /** What a quoted field loads back as: a field of quotes alone, the empty one included, gains a quote. */
  lemma {:induction false} QuotedFieldLoadsAs(f: string)
    ensures DecodeField(QuoteField(f)) == if OnlyQuotes(f) then f + [QUOTE] else f
    decreases |f|
  {
    if f == "" {
      assert QuoteField(f) == Quotes(2) + "";
      RunOfQuotes(2, "");
      assert Quotes(1) + "" == [QUOTE];
    } else {
      assert [f[0]] + f[1..] == f;
      if f[0] == QUOTE {
        QuoteStep(f);
        QuotedFieldLoadsAs(f[1..]);
        assert forall c :: c in f <==> c == f[0] || c in f[1..];
        assert OnlyQuotes(f) <==> OnlyQuotes(f[1..]);
        CharAssociative([QUOTE], f[1..], [QUOTE]);
      } else {
        DoubleStep(f);
        UnquoteClosing(f[1..]);
        assert f[0] in f;
      }
    }
  }

  /** Doubling keeps a start that holds no quote, and adds no other. */
  lemma {:induction false} DoublePrefix(f: string, d: string)
    requires QUOTE !in d
    ensures d <= f <==> d <= DoubleQuotes(f)
    decreases |f|
  {
    if f != "" && d != "" {
      DoublePrefix(f[1..], d[1..]);
      PrefixStep(d, f);
      PrefixStep(d, DoubleQuotes(f));
      if f[0] == QUOTE {
        assert d[0] != QUOTE;
      } else {
        assert DoubleQuotes(f)[1..] == DoubleQuotes(f[1..]);
      }
    }
  }

  lemma PrefixStep(d: string, f: string)
    requires d != "" && f != ""
    ensures d <= f <==> d[0] == f[0] && d[1..] <= f[1..]
  {
    if d[0] == f[0] && d[1..] <= f[1..] {
      assert forall i :: 0 < i < |d| ==> d[i] == d[1..][i - 1] == f[1..][i - 1] == f[i];
    }
  }

  lemma ContainsStep(s: string, sep: string)
    requires sep != "" && s != ""
    ensures Contains(s, sep) <==> sep <= s || Contains(s[1..], sep)
  {
  }

  lemma {:induction false} ContainsDoubled(f: string, d: string)
    requires d != "" && QUOTE !in d
    ensures Contains(DoubleQuotes(f), d) <==> Contains(f, d)
    decreases |f|
  {
    if f != "" {
      var g := DoubleQuotes(f);
      ContainsDoubled(f[1..], d);
      DoublePrefix(f, d);
      ContainsStep(f, d);
      ContainsStep(g, d);
      if f[0] == QUOTE {
        assert d[0] in d;
        ContainsStep(g[1..], d);
        assert g[1..][1..] == DoubleQuotes(f[1..]);
      } else {
        assert g[1..] == DoubleQuotes(f[1..]);
      }
    }
  }

  lemma {:induction false} ContainsClosing(s: string, d: string)
    requires d != "" && QUOTE !in d
    ensures Contains(s + [QUOTE], d) <==> Contains(s, d)
    decreases |s|
  {
    var t := s + [QUOTE];
    ContainsStep(t, d);
    assert d[0] in d && d[|d| - 1] in d;
    if s == "" {
      assert t[1..] == "";
    } else {
      ContainsClosing(s[1..], d);
      ContainsStep(s, d);
      assert t[1..] == s[1..] + [QUOTE];
      assert d <= t <==> d <= s by {
        assert d <= t ==> d[|d| - 1] == t[|d| - 1];
        assert |d| <= |s| ==> t[..|d|] == s[..|d|];
      }
    }
  }

  /** Quoting neither hides the delimiter nor creates one. */
  lemma ContainsQuoted(f: string, d: string)
    requires d != "" && QUOTE !in d
    ensures Contains(QuoteField(f), d) <==> Contains(f, d)
  {
    var s := DoubleQuotes(f);
    ContainsDoubled(f, d);
    ContainsClosing(s, d);
    var q := QuoteField(f);
    ContainsStep(q, d);
    assert q[1..] == s + [QUOTE];
    assert d[0] in d;
  }

  /** A field the loader gives back: no delimiter in it, and not of quotes alone. */
  predicate FieldSurvives(f: string, d: string)
    requires d != ""
  {
    !Contains(f, d) && !OnlyQuotes(f)
  }

  predicate RowSurvives(row: seq<string>, d: string)
    requires d != ""
  {
    forall i :: 0 <= i < |row| ==> FieldSurvives(row[i], d)
  }

  lemma RowIsSealed(row: seq<string>, d: string)
    requires d != "" && QUOTE !in d
    ensures AllSealed(QuoteRow(row), d)
    ensures NoneContains(QuoteRow(row), d) <==> forall i :: 0 <= i < |row| ==> !Contains(row[i], d)
  {
    forall i | 0 <= i < |row| ensures Contains(QuoteRow(row)[i], d) <==> Contains(row[i], d) {
      ContainsQuoted(row[i], d);
    }
  }

  lemma RowRoundTripIff(row: seq<string>, d: string)
    requires d != "" && QUOTE !in d
    ensures DecodeLine(Join(QuoteRow(row), d), d) == row <==> RowSurvives(row, d)
  {
    var line := Join(QuoteRow(row), d);
    RowIsSealed(row, d);
    SealedPartsSplit(QuoteRow(row), d, false);
    assert line + Trail(d, false) == line;
    var p := SplitSpec(line, d);
    if NoneContains(QuoteRow(row), d) {
      forall i | 0 <= i < |row| ensures DecodeRow(p)[i] == row[i] <==> !OnlyQuotes(row[i]) {
        QuotedFieldLoadsAs(row[i]);
      }
    }
  }

  // ------------------------------------------------------------ line breaks

  /** A line as a file has it between two line breaks. */
  predicate LineOk(line: string) {
    line != "" && line[0] == QUOTE && line[|line| - 1] == QUOTE
  }

  predicate LinesOk(lines: seq<string>) {
    forall i :: 0 <= i < |lines| ==> LineOk(lines[i])
  }

  lemma {:induction false} JoinedLineOk(parts: seq<string>, d: string)
    requires LinesOk(parts) && parts != []
    ensures LineOk(Join(parts, d))
    decreases |parts|
  {
    assert LineOk(parts[0]);
    if |parts| > 1 {
      JoinedLineOk(parts[1..], d);
      var rest := Join(parts[1..], d);
      var line := parts[0] + d + rest;
      assert line[0] == parts[0][0] && line[|line| - 1] == rest[|rest| - 1];
    }
  }

  predicate RowsOk(table: seq<seq<string>>) {
    forall i :: 0 <= i < |table| ==> table[i] != []
  }

  lemma WrittenLinesOk(table: seq<seq<string>>, d: string)
    requires RowsOk(table)
    ensures LinesOk(WriteRows(table, d))
  {
    forall i | 0 <= i < |table| ensures LineOk(WriteRows(table, d)[i]) {
      assert LinesOk(QuoteRow(table[i]));
      JoinedLineOk(QuoteRow(table[i]), d);
    }
  }

  lemma LinesAreSealed(lines: seq<string>, eol: string)
    requires LinesOk(lines) && eol in {"\n", "\r\n"}
    ensures AllSealed(lines, eol)
  {
    forall i | 0 <= i < |lines| ensures Sealed(lines[i], eol) {
      assert LineOk(lines[i]);
    }
  }

  /** The break after a first line without line feeds decides the separator. */
  lemma LineSepAfter(line: string, eol: string, rest: string)
    requires LineOk(line) && '\n' !in line && eol in {"\n", "\r\n"}
    ensures LineSep(line + (eol + rest)) == eol
  {
    var s := line + (eol + rest);
    FindWithout(line, "\n", '\n');
    if eol == "\n" {
      FindAfterClosed(line, "\n", rest);
      assert s[|line| - 1] == QUOTE;
    } else {
      var start := line + "\r";
      FindWithout(start, "\n", '\n');
      FindAfterClosed(start, "\n", rest);
      assert start + ("\n" + rest) == s;
      assert s[|line|] == '\r';
    }
  }

  lemma OnlyLine(line: string, eol: string)
    requires LineOk(line) && '\n' !in line && eol in {"\n", "\r\n"}
    ensures SplitSpec(line, LineSep(line)) == [line] && NoneContains([line], eol)
  {
    FindWithout(line, "\n", '\n');
    FindWithout(line, eol, '\n');
    LinesAreSealed([line], "\n");
    SealedPartsSplit([line], "\n", false);
    assert Join([line], "\n") + Trail("\n", false) == line;
  }

  /** With no line feed in the first line: the lines come back, or there are more of them if one
      holds a line break. */
  lemma LinesComeBack(lines: seq<string>, eol: string, lastBreak: bool)
    requires LinesOk(lines) && eol in {"\n", "\r\n"} && (lines != [] ==> '\n' !in lines[0])
    ensures var text := Join(lines, eol) + Trail(eol, lastBreak); SplitsInto(SplitSpec(text, LineSep(text)), lines, eol)
  {
    var text := Join(lines, eol) + Trail(eol, lastBreak);
    LinesAreSealed(lines, eol);
    SealedPartsSplit(lines, eol, lastBreak);
    if |lines| > 1 {
      JoinTail(lines, eol, Trail(eol, lastBreak));
      LineSepAfter(lines[0], eol, Join(lines[1..], eol) + Trail(eol, lastBreak));
    } else if |lines| == 1 && lastBreak {
      assert text == lines[0] + (eol + "");
      LineSepAfter(lines[0], eol, "");
    } else if |lines| == 1 {
      assert text == lines[0] && lines == [lines[0]];
      OnlyLine(lines[0], eol);
    } else {
      NoLines(eol, lastBreak);
    }
  }

  lemma NoLines(eol: string, lastBreak: bool)
    requires eol in {"\n", "\r\n"}
    ensures var text := Join([], eol) + Trail(eol, lastBreak); SplitSpec(text, LineSep(text)) == []
  {
    var text := Trail(eol, lastBreak);
    assert Join([], eol) + text == text;
    NothingInSeparators(eol, lastBreak);
    if lastBreak && eol == "\r\n" {
      assert text[1..] == "\n";
      assert FindIn(text[1..], "\n") == 0 && FindIn(text, "\n") == 1;
    }
  }

  // ------------------------------------------------- line feeds inside fields

  /** Around a character that is none of sep's, an occurrence is on one side. */
  lemma {:induction false} ContainsAcross(a: string, z: char, b: string, sep: string)
    requires sep != "" && z !in sep
    ensures Contains(a + ([z] + b), sep) <==> Contains(a, sep) || Contains(b, sep)
    decreases |a|
  {
    var t := a + ([z] + b);
    assert sep[0] in sep;
    if a == "" {
      assert t == [z] + b && t[1..] == b;
      ContainsStep(t, sep);
    } else {
      ContainsAcross(a[1..], z, b, sep);
      assert t[1..] == a[1..] + ([z] + b);
      ContainsStep(t, sep);
      ContainsStep(a, sep);
      PrefixBefore(a, z, b, sep);
    }
  }

  lemma PrefixHolds(sep: string, t: string, i: nat)
    requires sep <= t && i < |sep|
    ensures t[i] in sep
  {
    assert t[i] == sep[i];
  }

  lemma PrefixBefore(a: string, z: char, b: string, sep: string)
    requires z !in sep
    ensures sep <= a + ([z] + b) <==> sep <= a
  {
    var t := a + ([z] + b);
    assert t[|a|] == z;
    if |sep| <= |a| {
      assert t[..|sep|] == a[..|sep|];
    } else if sep <= t {
      PrefixHolds(sep, t, |a|);
    }
  }

  lemma ContainsInLine(f: string, rest: string, d: string, sep: string)
    requires sep != "" && QUOTE !in sep && !Contains(d, sep) && rest != "" && rest[0] == QUOTE
    ensures Contains(QuoteField(f) + (d + rest), sep) <==> Contains(f, sep) || Contains(rest, sep)
  {
    var x := [QUOTE] + DoubleQuotes(f);
    var y := rest[1..];
    assert rest == "" + ([QUOTE] + y);
    assert QuoteField(f) + (d + rest) == x + ([QUOTE] + (d + ([QUOTE] + y)));
    ContainsAcross(x, QUOTE, d + ([QUOTE] + y), sep);
    ContainsAcross(d, QUOTE, y, sep);
    ContainsAcross("", QUOTE, y, sep);
    assert x == "" + ([QUOTE] + DoubleQuotes(f));
    ContainsAcross("", QUOTE, DoubleQuotes(f), sep);
    ContainsDoubled(f, sep);
  }

  /** A line holds a separator made of other characters exactly when a field does. */
  lemma {:induction false} LineContainsIff(row: seq<string>, d: string, sep: string)
    requires row != [] && sep != "" && QUOTE !in sep && !Contains(d, sep)
    ensures Contains(Join(QuoteRow(row), d), sep) <==> !NoneContains(row, sep)
    decreases |row|
  {
    if |row| == 1 {
      ContainsQuoted(row[0], sep);
    } else {
      LineContainsIff(row[1..], d, sep);
      LineContainsStep(row, d, sep);
      FieldContains(row, sep);
    }
  }

  lemma FieldContains(row: seq<string>, sep: string)
    requires row != [] && sep != ""
    ensures NoneContains(row, sep) <==> !Contains(row[0], sep) && NoneContains(row[1..], sep)
  {
    assert row == [row[0]] + row[1..];
  }

  lemma LineContainsStep(row: seq<string>, d: string, sep: string)
    requires |row| > 1 && sep != "" && QUOTE !in sep && !Contains(d, sep)
    ensures Contains(Join(QuoteRow(row), d), sep) <==> Contains(row[0], sep) || Contains(Join(QuoteRow(row[1..]), d), sep)
  {
    var parts := QuoteRow(row);
    assert parts[1..] == QuoteRow(row[1..]);
    JoinedLineOk(parts[1..], d);
    JoinStep(parts, d);
    ContainsInLine(row[0], Join(parts[1..], d), d, sep);
  }

  lemma {:induction false} ContainsOne(s: string, c: char)
    ensures Contains(s, [c]) <==> c in s
    decreases |s|
  {
    if s != "" {
      ContainsStep(s, [c]);
      ContainsOne(s[1..], c);
      assert s == [s[0]] + s[1..];
      assert [c] <= s <==> s[0] == c;
    }
  }

  /** No field of the row holds a line feed. */
  predicate OnOneLine(row: seq<string>) {
    forall i :: 0 <= i < |row| ==> '\n' !in row[i]
  }

  lemma LineFeedIff(row: seq<string>, d: string)
    requires row != [] && '\n' !in d
    ensures '\n' in Join(QuoteRow(row), d) <==> !OnOneLine(row)
  {
    FindWithout(d, "\n", '\n');
    LineContainsIff(row, d, "\n");
    ContainsOne(Join(QuoteRow(row), d), '\n');
    forall i | 0 <= i < |row| ensures Contains(row[i], "\n") <==> '\n' in row[i] {
      ContainsOne(row[i], '\n');
    }
  }

  predicate Within(ps: seq<string>, s: string) {
    forall i :: 0 <= i < |ps| ==> forall c :: c in ps[i] ==> c in s
  }

  lemma {:induction false} PiecesWithin(s: string, sep: string)
    requires sep != ""
    ensures Within(Pieces(s, sep), s)
    decreases |s|
  {
    var c := FindIn(s, sep);
    if c >= 0 {
      var rest := s[c + |sep|..];
      PiecesWithin(rest, sep);
      assert forall x :: x in rest ==> x in s;
    }
  }

  lemma {:induction false} UnquoteWithin(s: string)
    ensures forall c :: c in Unquote(s) ==> c in s
    decreases |s|
  {
    if s != "" {
      UnquoteWithin(s[1..]);
      if |s| > 1 {
        UnquoteWithin(s[2..]);
      }
    }
  }

  /** Loading a line makes no character that is not in it. */
  lemma LoadedWithin(line: string, d: string)
    requires d != ""
    ensures Within(DecodeLine(line, d), line)
  {
    var p := FindFirstNotOf(line, d);
    if p >= 0 {
      PiecesWithin(line[p..], d);
      assert forall c :: c in line[p..] ==> c in line;
    }
    var ps := SplitSpec(line, d);
    forall i | 0 <= i < |ps| ensures forall c :: c in DecodeLine(line, d)[i] ==> c in line {
      UnquoteWithin(ps[i]);
    }
  }

  /** The first line of what is loaded has no line feed, whatever the separator. */
  lemma FirstLineIsOne(text: string)
    requires text != "" && text[0] == QUOTE && '\n' in text
    ensures var lines := SplitSpec(text, LineSep(text)); lines != [] && '\n' !in lines[0]
  {
    var sep := LineSep(text);
    var q := FindIn(text, "\n");
    ContainsOne(text, '\n');
    FindInIsFirst(text, "\n");
    FindInIsFirst(text, sep);
    assert text[q] == '\n' by {
      assert text[q..q + 1][0] == '\n';
    }
    BeforeFirstBreak(text, q);
    var c := if sep == "\n" then q else q - 1;
    assert Occurs(text, sep, c) by {
      assert text[c..c + |sep|] == sep;
    }
    assert FindFirstNotOf(text, sep) == 0 && text[0..] == text;
    var f := FindIn(text, sep);
    assert 0 < f <= c;
    assert Pieces(text, sep)[0] == text[..f];
  }

  lemma BeforeFirstBreak(text: string, q: nat)
    requires q < |text| && FindIn(text, "\n") == q
    ensures '\n' !in text[..q]
  {
    FindInIsFirst(text, "\n");
    forall i | 0 <= i < q ensures text[i] != '\n' {
      assert text[i..i + 1] == [text[i]];
      assert text[i] == '\n' ==> Occurs(text, "\n", i);
    }
  }

  // ------------------------------------------------------------ whole tables

  predicate TableSurvives(table: seq<seq<string>>, d: string)
    requires d != ""
  {
    forall i :: 0 <= i < |table| ==> RowSurvives(table[i], d)
  }

  /** Line breaks in fields that the loader puts up with: none for files with line feeds; for
      files with CR LF, lone line feeds after the first row. */
  predicate BreaksSurvive(table: seq<seq<string>>, eol: string)
    requires eol != ""
  {
    && (forall i :: 0 <= i < |table| ==> NoneContains(table[i], eol))
    && (table != [] ==> OnOneLine(table[0]))
  }

  lemma LinesContainIff(table: seq<seq<string>>, d: string, eol: string)
    requires RowsOk(table) && '\n' !in d && eol in {"\n", "\r\n"}
    ensures NoneContains(WriteRows(table, d), eol) <==> forall i :: 0 <= i < |table| ==> NoneContains(table[i], eol)
  {
    assert eol[|eol| - 1] == '\n';
    FindWithout(d, eol, '\n');
    forall i | 0 <= i < |table| ensures Contains(WriteRows(table, d)[i], eol) <==> !NoneContains(table[i], eol) {
      LineContainsIff(table[i], d, eol);
    }
  }

  lemma RowsComeBackIff(table: seq<seq<string>>, d: string)
    requires d != "" && QUOTE !in d
    ensures DecodeLines(WriteRows(table, d), d) == table <==> TableSurvives(table, d)
  {
    forall i | 0 <= i < |table| ensures DecodeLines(WriteRows(table, d), d)[i] == table[i] <==> RowSurvives(table[i], d) {
      RowRoundTripIff(table[i], d);
    }
  }

  lemma BrokenFirstRow(table: seq<seq<string>>, d: string, eol: string, lastBreak: bool)
    requires d != "" && '\n' !in d && RowsOk(table) && table != [] && !OnOneLine(table[0])
    ensures LoadSpec(Write(table, d, eol, lastBreak), d) != table
  {
    var lines := WriteRows(table, d);
    var text := Write(table, d, eol, lastBreak);
    WrittenLinesOk(table, d);
    assert LineOk(lines[0]);
    LineFeedIff(table[0], d);
    TextStarts(lines, eol, lastBreak);
    FirstLineIsOne(text);
    LoadedWithin(SplitSpec(text, LineSep(text))[0], d);
  }

  lemma TextStarts(lines: seq<string>, eol: string, lastBreak: bool)
    requires lines != [] && lines[0] != ""
    ensures var text := Join(lines, eol) + Trail(eol, lastBreak);
            text != "" && text[0] == lines[0][0] && forall c :: c in lines[0] ==> c in text
  {
    var text := Join(lines, eol) + Trail(eol, lastBreak);
    JoinStarts(lines, eol);
    assert lines[0] <= Join(lines, eol);
    assert text[..|lines[0]|] == lines[0];
  }

  /** Loading what was written gives the table back exactly when every field survives and no
      line break in a field stands in the way. */
  lemma TableRoundTripIff(table: seq<seq<string>>, d: string, eol: string, lastBreak: bool)
    requires d != "" && QUOTE !in d && '\n' !in d && eol in {"\n", "\r\n"} && RowsOk(table)
    ensures LoadSpec(Write(table, d, eol, lastBreak), d) == table <==> TableSurvives(table, d) && BreaksSurvive(table, eol)
  {
    if table != [] && !OnOneLine(table[0]) {
      BrokenFirstRow(table, d, eol, lastBreak);
    } else {
      var lines := WriteRows(table, d);
      WrittenLinesOk(table, d);
      if table != [] {
        LineFeedIff(table[0], d);
      }
      LinesComeBack(lines, eol, lastBreak);
      LinesContainIff(table, d, eol);
      RowsComeBackIff(table, d);
    }
  }
}
