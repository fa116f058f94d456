/** The one-shot conversion of table text to comma-separated text that `ct_add_line` computes piecemeal. */
module CsvText {

  /** `isspace` in the C locale: tab, newline, vertical tab, form feed, carriage return and space. */
  predicate IsSpace(c: char) {
    9 <= c as int <= 13 || c == ' '
  }

  predicate IsBlank(c: char) {
    IsSpace(c) && c != '\n'
  }

  /** The white space that is not a newline, byte by byte: space, tab, vertical tab, form feed, carriage return. */
  predicate Blank(c: char) {
    c == ' ' || c == '\t' || c == '\U{000B}' || c == '\U{000C}' || c == '\r'
  }

  lemma BlankIsSpace(c: char)
    ensures IsBlank(c) <==> Blank(c)
    ensures IsSpace(c) <==> Blank(c) || c == '\n'
  {}

  /** The bytes for position t: a blank counts only when the next byte, or the NUL after the text, is not a space. */
  function CsvAt(text: string, t: nat): string
    requires t < |text|
  {
    if IsBlank(text[t]) then
      if t + 1 < |text| && IsSpace(text[t + 1]) then "" else ","
    else [text[t]]
  }

  function CsvUpTo(text: string, n: nat): string
    requires n <= |text|
  {
    if n == 0 then "" else CsvUpTo(text, n - 1) + CsvAt(text, n - 1)
  }

  function Convert(text: string): string {
    CsvUpTo(text, |text|)
  }

  function Concat(lines: seq<string>): string {
    if |lines| == 0 then "" else Concat(lines[..|lines| - 1]) + lines[|lines| - 1]
  }

  lemma {:induction false} ConcatGrows(lines: seq<string>, k: nat)
    requires k <= |lines|
    ensures |Concat(lines[..k])| <= |Concat(lines)|
  {
    if k < |lines| {
      ConcatGrows(lines[..|lines| - 1], k);
      assert lines[..|lines| - 1][..k] == lines[..k];
    } else {
      assert lines[..k] == lines;
    }
  }

  function ConvertAll(lines: seq<string>): string {
    if |lines| == 0 then "" else ConvertAll(lines[..|lines| - 1]) + Convert(lines[|lines| - 1])
  }

  lemma ConcatStep(lines: seq<string>, k: nat)
    requires k < |lines|
    ensures Concat(lines[..k + 1]) == Concat(lines[..k]) + lines[k]
    ensures ConvertAll(lines[..k + 1]) == ConvertAll(lines[..k]) + Convert(lines[k])
  {
    assert lines[..k + 1][..k] == lines[..k];
  }

  predicate EndsLine(line: string) {
    |line| > 0 && line[|line| - 1] == '\n'
  }

  /** A blank at the end of `a` sees the first byte of `b`. */
  predicate Seam(a: string, b: string) {
    |a| > 0 && |b| > 0 && Blank(a[|a| - 1]) ==> !Blank(b[0]) && b[0] != '\n'
  }

  lemma {:induction false} CsvPrefix(a: string, b: string, n: nat)
    requires n <= |a| && Seam(a, b)
    ensures CsvUpTo(a + b, n) == CsvUpTo(a, n)
  {
    if n > 0 {
      CsvPrefix(a, b, n - 1);
      assert CsvAt(a + b, n - 1) == CsvAt(a, n - 1);
    }
  }

  lemma CsvShift(a: string, b: string, t: nat)
    requires t < |b|
    ensures CsvAt(a + b, |a| + t) == CsvAt(b, t)
  {}

  lemma Associative(a: string, b: string, c: string)
    ensures a + (b + c) == a + b + c
  {}

  lemma {:induction false} CsvSuffix(a: string, b: string, n: nat)
    requires n <= |b| && Seam(a, b)
    ensures CsvUpTo(a + b, |a| + n) == Convert(a) + CsvUpTo(b, n)
  {
    if n == 0 {
      CsvPrefix(a, b, |a|);
    } else {
      CsvSuffix(a, b, n - 1);
      CsvShift(a, b, n - 1);
      hide CsvAt, Seam;
      Associative(Convert(a), CsvUpTo(b, n - 1), CsvAt(b, n - 1));
      assert CsvUpTo(a + b, |a| + n) == CsvUpTo(a + b, |a| + n - 1) + CsvAt(a + b, |a| + n - 1);
    }
  }

  /** Converting two pieces separately gives the conversion of the whole unless the cut splits a run of spaces. */
  lemma ConvertConcat(a: string, b: string)
    requires Seam(a, b)
    ensures Convert(a + b) == Convert(a) + Convert(b)
  {
    CsvSuffix(a, b, |b|);
  }

  /** For newline-terminated lines, converting line by line is converting the whole table. */
  lemma {:induction false} ConvertLines(lines: seq<string>)
    requires forall k :: 0 <= k < |lines| ==> EndsLine(lines[k])
    ensures ConvertAll(lines) == Convert(Concat(lines))
  {
    if |lines| > 0 {
      var n := |lines| - 1;
      ConvertLines(lines[..n]);
      if n > 0 {
        assert EndsLine(lines[n - 1]);
        assert Concat(lines[..n]) == Concat(lines[..n][..n - 1]) + lines[n - 1];
      }
      ConvertConcat(Concat(lines[..n]), lines[n]);
    }
  }

  /** A table cell: the blanks before it and its text. */
  datatype Cell = Cell(gap: string, word: string) {
    predicate Valid() {
      && (forall k :: 0 <= k < |gap| ==> Blank(gap[k]))
      && |word| > 0 && (forall k :: 0 <= k < |word| ==> !Blank(word[k]) && word[k] != '\n')
    }
  }

  function Row(cells: seq<Cell>): string {
    if |cells| == 0 then "" else Row(cells[..|cells| - 1]) + cells[|cells| - 1].gap + cells[|cells| - 1].word
  }

  function CsvRow(cells: seq<Cell>): string {
    if |cells| == 0 then ""
    else CsvRow(cells[..|cells| - 1]) + (if |cells[|cells| - 1].gap| == 0 then "" else ",") + cells[|cells| - 1].word
  }

  lemma {:induction false} BlankRun(gap: string, n: nat)
    requires forall k :: 0 <= k < |gap| ==> Blank(gap[k])
    requires n <= |gap|
    ensures CsvUpTo(gap, n) == if 0 < n == |gap| then "," else ""
  {
    if n > 0 {
      assert CsvUpTo(gap, n) == CsvUpTo(gap, n - 1) + CsvAt(gap, n - 1);
      hide CsvUpTo;
      BlankRun(gap, n - 1);
    }
  }

  lemma {:induction false} WordRun(word: string, n: nat)
    requires forall k :: 0 <= k < |word| ==> !Blank(word[k]) && word[k] != '\n'
    requires n <= |word|
    ensures CsvUpTo(word, n) == word[..n]
  {
    if n > 0 {
      assert CsvUpTo(word, n) == CsvUpTo(word, n - 1) + CsvAt(word, n - 1);
      assert CsvAt(word, n - 1) == [word[n - 1]];
      hide CsvUpTo, CsvAt;
      WordRun(word, n - 1);
    }
  }

  lemma CellIsCommaSeparated(c: Cell)
    requires c.Valid()
    ensures Convert(c.gap + c.word) == (if |c.gap| == 0 then "" else ",") + c.word
  {
    assert Seam(c.gap, c.word);
    hide CsvUpTo, CsvAt, Seam;
    BlankRun(c.gap, |c.gap|);
    WordRun(c.word, |c.word|);
    ConvertConcat(c.gap, c.word);
    assert c.word[..|c.word|] == c.word;
    hide Blank;
  }

  predicate EndsInWord(row: string) {
    |row| > 0 && !Blank(row[|row| - 1])
  }

  /** A row of cells becomes the words of the cells with one comma for every gap. */
  lemma {:induction false} RowIsCommaSeparated(cells: seq<Cell>)
    requires forall k :: 0 <= k < |cells| ==> cells[k].Valid()
    ensures Convert(Row(cells)) == CsvRow(cells)
    ensures |cells| > 0 ==> EndsInWord(Row(cells))
  {
    if |cells| > 0 {
      var n := |cells| - 1;
      var c := cells[n];
      var before, text := Row(cells[..n]), c.gap + c.word;
      RowIsCommaSeparated(cells[..n]);
      CellIsCommaSeparated(c);
      assert Row(cells) == before + text by {
        Associative(before, c.gap, c.word);
      }
      hide Row, CsvAt;
      assert Seam(before, text);
      ConvertConcat(before, text);
      Associative(CsvRow(cells[..n]), if |c.gap| == 0 then "" else ",", c.word);
      hide Convert;
    }
  }

  lemma {:induction false} TrailingRun(trailing: string, n: nat)
    requires forall k :: 0 <= k < |trailing| ==> Blank(trailing[k])
    requires n <= |trailing|
    ensures CsvUpTo(trailing + "\n", n) == ""
  {
    if n > 0 {
      assert CsvUpTo(trailing + "\n", n) == CsvUpTo(trailing + "\n", n - 1) + CsvAt(trailing + "\n", n - 1);
      assert CsvAt(trailing + "\n", n - 1) == "";
      hide CsvUpTo, CsvAt;
      TrailingRun(trailing, n - 1);
    }
  }

  lemma EndOfLine(trailing: string)
    requires forall k :: 0 <= k < |trailing| ==> Blank(trailing[k])
    ensures Convert(trailing + "\n") == "\n"
  {
    var end, n := trailing + "\n", |trailing|;
    TrailingRun(trailing, n);
    assert end[n] == '\n' && CsvAt(end, n) == "\n";
    assert Convert(end) == CsvUpTo(end, n) + CsvAt(end, n);
    hide *;
  }

  /** A line of cells becomes the cells with one comma for every gap; blanks before the newline disappear. */
  lemma LineIsCommaSeparated(cells: seq<Cell>, trailing: string)
    requires forall k :: 0 <= k < |cells| ==> cells[k].Valid()
    requires forall k :: 0 <= k < |trailing| ==> Blank(trailing[k])
    ensures Convert(Row(cells) + (trailing + "\n")) == CsvRow(cells) + "\n"
  {
    var row, end := Row(cells), trailing + "\n";
    RowIsCommaSeparated(cells);
    assert Seam(row, end);
    EndOfLine(trailing);
    hide *;
    ConvertConcat(row, end);
  }

  /** No space, tab, vertical tab, form feed or carriage return is left in converted text. */
  lemma {:induction false} NoBlankLeft(text: string, n: nat)
    requires n <= |text|
    ensures forall k :: 0 <= k < |CsvUpTo(text, n)| ==>
              CsvUpTo(text, n)[k] !in {' ', '\t', '\U{000B}', '\U{000C}', '\r'}
  {
    if n > 0 {
      NoBlankLeft(text, n - 1);
      BlankIsSpace(text[n - 1]);
    }
  }

  /** A text without its white space and commas; newlines stay. */
  function Marks(text: string): string {
    if |text| == 0 then ""
    else
      var c := text[|text| - 1];
      Marks(text[..|text| - 1]) + if c in {' ', '\t', '\U{000B}', '\U{000C}', '\r', ','} then "" else [c]
  }

  lemma {:induction false} MarksAppend(a: string, b: string)
    ensures Marks(a + b) == Marks(a) + Marks(b)
  {
    if |b| == 0 {
      assert a + b == a;
    } else {
      var front := b[..|b| - 1];
      assert (a + b)[..|a + b| - 1] == a + front;
      MarksAppend(a, front);
    }
  }

  /** Every other byte is kept, in order: converting only drops white space and inserts commas. */
  lemma {:induction false} MarksKept(text: string, n: nat)
    requires n <= |text|
    ensures Marks(CsvUpTo(text, n)) == Marks(text[..n])
  {
    if n > 0 {
      assert text[..n] == text[..n - 1] + [text[n - 1]];
      assert CsvUpTo(text, n) == CsvUpTo(text, n - 1) + CsvAt(text, n - 1);
      hide Marks, CsvUpTo, CsvAt;
      MarksKept(text, n - 1);
      MarksAppend(CsvUpTo(text, n - 1), CsvAt(text, n - 1));
      MarksAppend(text[..n - 1], [text[n - 1]]);
      MarksOfByte(text, n - 1);
    } else {
      assert CsvUpTo(text, 0) == text[..0];
    }
  }

  lemma MarksOfByte(text: string, t: nat)
    requires t < |text|
    ensures Marks(CsvAt(text, t)) == Marks([text[t]])
  {
    BlankIsSpace(text[t]);
  }

  /** What conversion does to any text. */
  lemma ConvertKeepsMarks(text: string)
    ensures Marks(Convert(text)) == Marks(text)
    ensures forall k :: 0 <= k < |Convert(text)| ==>
              Convert(text)[k] !in {' ', '\t', '\U{000B}', '\U{000C}', '\r'}
  {
    NoBlankLeft(text, |text|);
    MarksKept(text, |text|);
    assert text[..|text|] == text;
  }
}
