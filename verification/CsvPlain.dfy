/** Tables whose fields are written with or without quotes load back (fflib/base/str_tool.h:28-60 and 115-152). */
module CsvPlain {
  import opened Csv
  import CsvLaws

  /** One field of a file and how it is written. */
  datatype Cell = Cell(text: string, quoted: bool)

  function Written(x: Cell): string {
    if x.quoted then QuoteField(x.text) else x.text
  }

  function WrittenRow(row: seq<Cell>): (r: seq<string>)
    ensures |r| == |row| && forall i :: 0 <= i < |r| ==> r[i] == Written(row[i])
  {
    seq(|row|, i requires 0 <= i < |row| => Written(row[i]))
  }

  function WrittenLines(table: seq<seq<Cell>>, c: char): (r: seq<string>)
    ensures |r| == |table| && forall i :: 0 <= i < |r| ==> r[i] == Join(WrittenRow(table[i]), [c])
  {
    seq(|table|, i requires 0 <= i < |table| => Join(WrittenRow(table[i]), [c]))
  }

  function WriteCells(table: seq<seq<Cell>>, c: char, eol: string, lastBreak: bool): string {
    Join(WrittenLines(table, c), eol) + Trail(eol, lastBreak)
  }

  function TextsOfRow(row: seq<Cell>): (r: seq<string>)
    ensures |r| == |row| && forall i :: 0 <= i < |r| ==> r[i] == row[i].text
  {
    seq(|row|, i requires 0 <= i < |row| => row[i].text)
  }

  function Texts(table: seq<seq<Cell>>): (r: seq<seq<string>>)
    ensures |r| == |table| && forall i :: 0 <= i < |r| ==> r[i] == TextsOfRow(table[i])
  {
    seq(|table|, i requires 0 <= i < |table| => TextsOfRow(table[i]))
  }

  // -------------------------------------------------------------- clean parts

  /** No character of the separator in any part. */
  predicate Clean(parts: seq<string>, sep: string) {
    forall i :: 0 <= i < |parts| ==> forall z :: z in sep ==> z !in parts[i]
  }

  function Filled(parts: seq<string>): (r: seq<string>)
    ensures |r| <= |parts| && (|r| == |parts| <==> forall i :: 0 <= i < |parts| ==> parts[i] != "")
  {
    if parts == [] then [] else NonEmpty(parts[0]) + Filled(parts[1..])
  }

  lemma {:induction false} FilledIsAll(parts: seq<string>)
    requires forall i :: 0 <= i < |parts| ==> parts[i] != ""
    ensures Filled(parts) == parts
  {
    if parts != [] {
      FilledIsAll(parts[1..]);
      assert parts == [parts[0]] + parts[1..];
    }
  }

  lemma SkipSeparator(sep: string, rest: string)
    requires sep != ""
    ensures SplitSpec(sep + rest, sep) == SplitSpec(rest, sep) && Pieces(sep + rest, sep) == Pieces(rest, sep)
  {
    var s := sep + rest;
    assert s[..|sep|] == sep && s[|sep|..] == rest;
    SkipCharacters(sep, rest, sep);
    assert NonEmpty("") + Pieces(rest, sep) == Pieces(rest, sep);
    assert s[..0] == "";
  }

  lemma SkipOne(s: string, sep: string)
    requires sep != "" && s != "" && s[0] in sep
    ensures SplitSpec(s, sep) == SplitSpec(s[1..], sep)
  {
    var p := FindFirstNotOf(s[1..], sep);
    assert p >= 0 ==> s[p + 1..] == s[1..][p..];
  }

  lemma {:induction false} SkipCharacters(head: string, rest: string, sep: string)
    requires sep != "" && forall z :: z in head ==> z in sep
    ensures SplitSpec(head + rest, sep) == SplitSpec(rest, sep)
    decreases |head|
  {
    if head == "" {
      assert head + rest == rest;
    } else {
      assert head[0] in head && (head + rest)[1..] == head[1..] + rest;
      SkipOne(head + rest, sep);
      SkipCharacters(head[1..], rest, sep);
    }
  }

  lemma CleanPart(part: string, sep: string)
    requires sep != "" && part != "" && forall z :: z in sep ==> z !in part
    ensures CsvLaws.Sealed(part, sep) && Pieces(part, sep) == [part]
  {
    assert part[0] in part && part[|part| - 1] in part && sep[0] in sep;
    CsvLaws.FindWithout(part, sep, sep[0]);
  }

  lemma FromTheStart(s: string, sep: string)
    requires sep != "" && s != "" && s[0] !in sep
    ensures SplitSpec(s, sep) == Pieces(s, sep)
  {
    assert s[0..] == s;
  }

  lemma CleanOne(part: string, sep: string, trailing: bool)
    requires sep != "" && forall z :: z in sep ==> z !in part
    ensures Pieces(part + Trail(sep, trailing), sep) == NonEmpty(part)
    ensures SplitSpec(part + Trail(sep, trailing), sep) == NonEmpty(part)
  {
    var s := part + Trail(sep, trailing);
    if part != "" {
      CleanPart(part, sep);
      CsvLaws.PiecesOfOne(part, sep, trailing);
      FromTheStart(s, sep);
    } else {
      assert Pieces("", sep) == [] && SplitSpec("", sep) == [];
      if trailing {
        SkipSeparator(sep, "");
        assert s == sep + "";
      }
    }
  }

  /** Clean parts come back without the empty ones. */
  lemma {:induction false} CleanSplit(parts: seq<string>, sep: string, trailing: bool)
    requires sep != "" && Clean(parts, sep)
    ensures Pieces(Join(parts, sep) + Trail(sep, trailing), sep) == Filled(parts)
    ensures SplitSpec(Join(parts, sep) + Trail(sep, trailing), sep) == Filled(parts)
    decreases |parts|
  {
    var s := Join(parts, sep) + Trail(sep, trailing);
    if |parts| <= 1 {
      var part := if parts == [] then "" else parts[0];
      CleanOne(part, sep, trailing);
      assert Filled(parts) == NonEmpty(part);
    } else {
      var rest := Join(parts[1..], sep) + Trail(sep, trailing);
      CleanSplit(parts[1..], sep, trailing);
      CsvLaws.JoinTail(parts, sep, Trail(sep, trailing));
      CleanFirst(parts[0], sep, rest);
    }
  }

  lemma CleanFirst(part: string, sep: string, rest: string)
    requires sep != "" && SplitSpec(rest, sep) == Pieces(rest, sep) && forall z :: z in sep ==> z !in part
    ensures Pieces(part + (sep + rest), sep) == NonEmpty(part) + Pieces(rest, sep)
    ensures SplitSpec(part + (sep + rest), sep) == NonEmpty(part) + Pieces(rest, sep)
  {
    if part == "" {
      SkipSeparator(sep, rest);
      assert part + (sep + rest) == sep + rest;
    } else {
      CleanPart(part, sep);
      CsvLaws.PiecesConcat(part, sep, rest);
      FromTheStart(part + (sep + rest), sep);
    }
  }

  // ---------------------------------------------------------------------- rows

  /** A field that is loaded as its text: without the delimiter; in quotes, not of quotes alone;
      without quotes, not empty and not starting with one. */
  predicate CellFits(x: Cell, c: char) {
    && c !in x.text
    && (x.quoted ==> !CsvLaws.OnlyQuotes(x.text))
    && (!x.quoted ==> x.text != "" && x.text[0] != QUOTE)
  }

  predicate RowFits(row: seq<Cell>, c: char) {
    forall i :: 0 <= i < |row| ==> CellFits(row[i], c)
  }

  lemma {:induction false} DoubledCharacters(f: string, c: char)
    ensures c in f ==> c in DoubleQuotes(f)
    ensures c in DoubleQuotes(f) ==> c in f
  {
    if f != "" {
      DoubledCharacters(f[1..], c);
      assert f == [f[0]] + f[1..];
    }
  }

  lemma WrittenCharacters(x: Cell, c: char)
    requires c != QUOTE
    ensures c in Written(x) <==> c in x.text
  {
    DoubledCharacters(x.text, c);
  }

  lemma {:induction false} Shrinks(s: string)
    ensures |Unquote(s)| <= |s|
    decreases |s|
  {
    if s != "" {
      Shrinks(s[1..]);
      if |s| > 1 {
        Shrinks(s[2..]);
      }
    }
  }

  /** A field written without quotes is its own text unless it starts with one. */
  lemma PlainFieldLoadsAs(f: string)
    ensures DecodeField(f) == f <==> f == "" || f[0] != QUOTE
  {
    if f != "" && f[0] == QUOTE {
      Shrinks(f[1..]);
      if |f| > 1 {
        Shrinks(f[2..]);
      }
    }
  }

  lemma CellFitsIff(x: Cell, c: char)
    requires c != QUOTE
    ensures CellFits(x, c) <==> c !in Written(x) && Written(x) != "" && DecodeField(Written(x)) == x.text
  {
    WrittenCharacters(x, c);
    CsvLaws.QuotedFieldLoadsAs(x.text);
    PlainFieldLoadsAs(x.text);
  }

  lemma {:induction false} PiecesLack(s: string, c: char)
    ensures forall i :: 0 <= i < |Pieces(s, [c])| ==> c !in Pieces(s, [c])[i]
    decreases |s|
  {
    var p := FindIn(s, [c]);
    CsvLaws.ContainsOne(s, c);
    if p >= 0 {
      PiecesLack(s[p + 1..], c);
      BeforeFirst(s, c, p);
    }
  }

  lemma BeforeFirst(s: string, c: char, p: nat)
    requires FindIn(s, [c]) == p && p < |s|
    ensures c !in s[..p]
  {
    FindInIsFirst(s, [c]);
    forall i | 0 <= i < p ensures s[i] != c {
      assert s[i..i + 1] == [s[i]];
      assert s[i] == c ==> Occurs(s, [c], i);
    }
  }

  /** No loaded field holds the delimiter. */
  lemma LoadedLack(line: string, c: char)
    ensures forall i :: 0 <= i < |DecodeLine(line, [c])| ==> c !in DecodeLine(line, [c])[i]
  {
    var p := FindFirstNotOf(line, [c]);
    if p >= 0 {
      PiecesLack(line[p..], c);
    }
    var ps := SplitSpec(line, [c]);
    forall i | 0 <= i < |ps| ensures c !in DecodeField(ps[i]) {
      CsvLaws.UnquoteWithin(ps[i]);
    }
  }

  lemma LoadedRowIsClean(row: seq<Cell>, c: char)
    requires c != QUOTE && DecodeLine(Join(WrittenRow(row), [c]), [c]) == TextsOfRow(row)
    ensures Clean(WrittenRow(row), [c])
  {
    LoadedLack(Join(WrittenRow(row), [c]), c);
    forall i | 0 <= i < |row| ensures c !in WrittenRow(row)[i] {
      assert TextsOfRow(row)[i] == row[i].text;
      WrittenCharacters(row[i], c);
    }
  }

  lemma CleanRow(row: seq<Cell>, c: char)
    requires Clean(WrittenRow(row), [c])
    ensures DecodeLine(Join(WrittenRow(row), [c]), [c]) == DecodeRow(Filled(WrittenRow(row)))
  {
    var line := Join(WrittenRow(row), [c]);
    CleanSplit(WrittenRow(row), [c], false);
    assert line + Trail([c], false) == line;
  }

  lemma RowLoadsIff(row: seq<Cell>, c: char)
    requires c != QUOTE
    ensures DecodeLine(Join(WrittenRow(row), [c]), [c]) == TextsOfRow(row) <==> RowFits(row, c)
  {
    var parts := WrittenRow(row);
    forall i | 0 <= i < |row|
      ensures CellFits(row[i], c) <==> c !in parts[i] && parts[i] != "" && DecodeField(parts[i]) == row[i].text
    {
      CellFitsIff(row[i], c);
    }
    if DecodeLine(Join(parts, [c]), [c]) == TextsOfRow(row) {
      LoadedRowIsClean(row, c);
      CleanRow(row, c);
      assert |Filled(parts)| == |parts|;
      FilledIsAll(parts);
      assert forall i :: 0 <= i < |row| ==> DecodeRow(parts)[i] == TextsOfRow(row)[i];
    }
    if RowFits(row, c) {
      CleanRow(row, c);
      FilledIsAll(parts);
      assert DecodeRow(parts) == TextsOfRow(row);
    }
  }

  // -------------------------------------------------------------- whole tables

  /** No line break in any field. */
  predicate Unbroken(table: seq<seq<Cell>>) {
    forall i, j :: 0 <= i < |table| && 0 <= j < |table[i]| ==> '\n' !in table[i][j].text && '\r' !in table[i][j].text
  }

  predicate TableFits(table: seq<seq<Cell>>, c: char) {
    forall i :: 0 <= i < |table| ==> table[i] != [] && RowFits(table[i], c)
  }

  lemma {:induction false} JoinedCharacters(parts: seq<string>, c: char, z: char)
    requires z != c && forall i :: 0 <= i < |parts| ==> z !in parts[i]
    ensures z !in Join(parts, [c])
    decreases |parts|
  {
    if |parts| > 1 {
      JoinedCharacters(parts[1..], c, z);
    }
  }

  lemma LinesAreClean(table: seq<seq<Cell>>, c: char)
    requires c !in {QUOTE, '\n', '\r'} && Unbroken(table)
    ensures Clean(WrittenLines(table, c), "\r\n")
  {
    forall i, z | 0 <= i < |table| && z in {'\n', '\r'} ensures z !in WrittenLines(table, c)[i] {
      forall j | 0 <= j < |table[i]| ensures z !in WrittenRow(table[i])[j] {
        WrittenCharacters(table[i][j], z);
      }
      JoinedCharacters(WrittenRow(table[i]), c, z);
    }
  }

  /** The first break of the text is the one behind the first line. */
  lemma BreakIsRecognized(line: string, eol: string, rest: string)
    requires eol in {"\n", "\r\n"} && '\n' !in line && '\r' !in line
    ensures LineSep(line + (eol + rest)) == eol
  {
    var s := line + (eol + rest);
    var k := |line| + |eol| - 1;
    assert s[k] == eol[|eol| - 1] == '\n';
    assert s[k..k + 1] == "\n";
    assert Occurs(s, "\n", k);
    FindInIsFirst(s, "\n");
    var p := FindIn(s, "\n");
    assert s[p..p + 1][0] == '\n' && s[p] == '\n';
    assert forall i :: 0 <= i < |line| ==> s[i] == line[i] && line[i] in line;
    assert |eol| == 2 ==> s[|line|] == eol[0] == '\r';
    assert p == k;
  }

  lemma OneLineLoads(line: string, eol: string, lastBreak: bool)
    requires eol in {"\n", "\r\n"} && '\n' !in line && '\r' !in line
    ensures var text := line + Trail(eol, lastBreak); SplitSpec(text, LineSep(text)) == NonEmpty(line)
  {
    CleanOne(line, eol, lastBreak);
    if lastBreak {
      assert line + eol == line + (eol + "");
      BreakIsRecognized(line, eol, "");
    } else {
      assert line + "" == line;
      CsvLaws.FindWithout(line, "\n", '\n');
      CleanOne(line, "\n", false);
    }
  }

  /** Lines without breaks come back without the empty ones. */
  lemma LinesLoad(lines: seq<string>, eol: string, lastBreak: bool)
    requires eol in {"\n", "\r\n"} && Clean(lines, "\r\n")
    ensures var text := Join(lines, eol) + Trail(eol, lastBreak); SplitSpec(text, LineSep(text)) == Filled(lines)
  {
    if |lines| > 1 {
      CleanSplit(lines, eol, lastBreak);
      CsvLaws.JoinTail(lines, eol, Trail(eol, lastBreak));
      BreakIsRecognized(lines[0], eol, Join(lines[1..], eol) + Trail(eol, lastBreak));
    } else {
      var line := if lines == [] then "" else lines[0];
      OneLineLoads(line, eol, lastBreak);
      assert Filled(lines) == NonEmpty(line);
    }
  }

  lemma LineIsNotEmpty(row: seq<Cell>, c: char)
    requires row != [] && RowFits(row, c)
    ensures Join(WrittenRow(row), [c]) != ""
  {
    assert CellFits(row[0], c) && WrittenRow(row)[0] == Written(row[0]);
    CsvLaws.JoinStarts(WrittenRow(row), [c]);
  }

  lemma RowOfTable(row: seq<Cell>, c: char)
    requires c != QUOTE
    ensures var line := Join(WrittenRow(row), [c]);
            && (row != [] && RowFits(row, c) ==> line != "")
            && (line != "" ==> row != [])
            && (DecodeLine(line, [c]) == TextsOfRow(row) <==> RowFits(row, c))
  {
    RowLoadsIff(row, c);
    if row != [] && RowFits(row, c) {
      LineIsNotEmpty(row, c);
    }
  }

  lemma FilledLinesLoadIff(table: seq<seq<Cell>>, c: char)
    requires c != QUOTE
    ensures DecodeLines(Filled(WrittenLines(table, c)), [c]) == Texts(table) <==> TableFits(table, c)
  {
    var lines := WrittenLines(table, c);
    forall i | 0 <= i < |table|
      ensures lines[i] != "" && DecodeLine(lines[i], [c]) == TextsOfRow(table[i]) <==> table[i] != [] && RowFits(table[i], c)
    {
      RowOfTable(table[i], c);
    }
    var loaded := DecodeLines(Filled(lines), [c]);
    if |Filled(lines)| == |lines| {
      FilledIsAll(lines);
      assert forall i :: 0 <= i < |table| ==> loaded[i] == DecodeLine(lines[i], [c]) && Texts(table)[i] == TextsOfRow(table[i]);
    }
  }

  /** Fields without line breaks, each written with or without quotes: the table is loaded as it
      was written exactly when no row is empty and every field fits. */
  lemma MixedTableLoadsIff(table: seq<seq<Cell>>, c: char, eol: string, lastBreak: bool)
    requires c !in {QUOTE, '\n', '\r'} && eol in {"\n", "\r\n"} && Unbroken(table)
    ensures LoadSpec(WriteCells(table, c, eol, lastBreak), [c]) == Texts(table) <==> TableFits(table, c)
  {
    LinesAreClean(table, c);
    LinesLoad(WrittenLines(table, c), eol, lastBreak);
    FilledLinesLoadIff(table, c);
  }

  // ----------------------------------------------------------- without quotes

  function PlainLines(table: seq<seq<string>>, c: char): (r: seq<string>)
    ensures |r| == |table| && forall i :: 0 <= i < |r| ==> r[i] == Join(table[i], [c])
  {
    seq(|table|, i requires 0 <= i < |table| => Join(table[i], [c]))
  }

  function PlainRow(row: seq<string>): (r: seq<Cell>)
    ensures |r| == |row| && forall i :: 0 <= i < |r| ==> r[i] == Cell(row[i], false)
  {
    seq(|row|, i requires 0 <= i < |row| => Cell(row[i], false))
  }

  function PlainTable(table: seq<seq<string>>): (r: seq<seq<Cell>>)
    ensures |r| == |table| && forall i :: 0 <= i < |r| ==> r[i] == PlainRow(table[i])
  {
    seq(|table|, i requires 0 <= i < |table| => PlainRow(table[i]))
  }

  lemma PlainIsWritten(table: seq<seq<string>>, c: char)
    ensures WrittenLines(PlainTable(table), c) == PlainLines(table, c) && Texts(PlainTable(table)) == table
  {
    forall i | 0 <= i < |table| ensures WrittenRow(PlainRow(table[i])) == table[i] && TextsOfRow(PlainRow(table[i])) == table[i] {
    }
  }

  /** A field that needs no quotes. */
  predicate NeedsNoQuotes(f: string, c: char) {
    f != "" && f[0] != QUOTE && c !in f
  }

  /** Lines of fields joined by the delimiter, without any quoting: the table comes back exactly when
      no row is empty and no field needs quotes. */
  lemma PlainTableLoadsIff(table: seq<seq<string>>, c: char, eol: string, lastBreak: bool)
    requires c !in {QUOTE, '\n', '\r'} && eol in {"\n", "\r\n"}
    requires forall i, j :: 0 <= i < |table| && 0 <= j < |table[i]| ==> '\n' !in table[i][j] && '\r' !in table[i][j]
    ensures LoadSpec(Join(PlainLines(table, c), eol) + Trail(eol, lastBreak), [c]) == table <==>
            forall i :: 0 <= i < |table| ==> table[i] != [] && forall j :: 0 <= j < |table[i]| ==> NeedsNoQuotes(table[i][j], c)
  {
    var cells := PlainTable(table);
    PlainIsWritten(table, c);
    MixedTableLoadsIff(cells, c, eol, lastBreak);
    forall i | 0 <= i < |table|
      ensures RowFits(cells[i], c) <==> forall j :: 0 <= j < |table[i]| ==> NeedsNoQuotes(table[i][j], c)
    {
      assert forall j :: 0 <= j < |table[i]| ==> (CellFits(cells[i][j], c) <==> NeedsNoQuotes(table[i][j], c));
    }
  }

  /** A line of two fields. */
  lemma PlainLineLoads(a: string, b: string, c: char)
    requires c !in {QUOTE, '\n', '\r'} && NeedsNoQuotes(a, c) && NeedsNoQuotes(b, c)
    requires '\n' !in a && '\r' !in a && '\n' !in b && '\r' !in b
    ensures LoadSpec(a + [c] + b + "\n", [c]) == [[a, b]]
  {
    var row := [a, b];
    assert row[1..] == [b];
    assert Join(row, [c]) == a + [c] + b;
    assert PlainLines([row], c) == [a + [c] + b];
    PlainTableLoadsIff([row], c, "\n", true);
  }

  /** A line of a configuration file. */
  lemma PlainExample()
    ensures LoadSpec("10,sword\n", ",") == [["10", "sword"]]
  {
    var a, b := "10", "sword";
    assert a + [','] + b + "\n" == "10,sword\n";
    assert NeedsNoQuotes(a, ',') && NeedsNoQuotes(b, ',');
    PlainLineLoads(a, b, ',');
  }
}
