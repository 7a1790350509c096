/** PrintData: a hex dump in rows of sixteen, written by one flat loop. */
module HexDump {
  import opened Checksum

  const WIDTH: nat := 16
  const INDENT: string := "   "
  const GAP: string := "         "

  function HexDigit(d: int): char
    requires 0 <= d < 16
  {
    "0123456789ABCDEF"[d]
  }

  /** " %02X" of a signed char widened to unsigned int: a byte with the top bit set prints eight digits. */
  function Cell(b: byte): string {
    var two := [HexDigit(b / 16), HexDigit(b % 16)];
    if b < 128 then " " + two else " FFFFFF" + two
  }

  /** The printable form of a signed char. */
  function Glyph(b: byte): char {
    if 32 <= b < 128 then b as char else '.'
  }

  function Cells(row: seq<byte>): string {
    if row == [] then "" else Cells(row[..|row| - 1]) + Cell(row[|row| - 1])
  }

  function Glyphs(row: seq<byte>): string {
    if row == [] then "" else Glyphs(row[..|row| - 1]) + [Glyph(row[|row| - 1])]
  }

  function Pad(n: nat): string {
    if n == 0 then "" else Pad(n - 1) + "   "
  }

  /** One row on its own: the hex cells, padding to the row width, then the text column. */
  function Row(row: seq<byte>): string
    requires |row| <= WIDTH
  {
    INDENT + Cells(row) + Pad(WIDTH - |row|) + GAP + Glyphs(row) + "\n"
  }

  /** The dump, row by row. */
  function Dump(data: seq<byte>): string {
    if data == [] then ""
    else if |data| <= WIDTH then Row(data)
    else Row(data[..WIDTH]) + Dump(data[WIDTH..])
  }

  lemma {:induction false} DumpSplit(x: seq<byte>, y: seq<byte>)
    requires |x| % WIDTH == 0
    ensures Dump(x + y) == Dump(x) + Dump(y)
  {
    hide Row;
    if x == [] {
      assert x + y == y;
    } else if |x| == WIDTH && y == [] {
      assert x + y == x;
    } else {
      DumpSplit(x[WIDTH..], y);
      assert (x + y)[..WIDTH] == x[..WIDTH] && (x + y)[WIDTH..] == x[WIDTH..] + y;
      assert |x| == WIDTH ==> x[..WIDTH] == x && x[WIDTH..] == [];
    }
  }

  lemma Assoc(x: string, y: string, z: string)
    ensures x + y + z == x + (y + z)
  {
  }

  lemma AppendRow(before: string, row: seq<byte>, pad: string)
    requires |row| <= WIDTH && pad == Pad(WIDTH - |row|)
    ensures before + INDENT + Cells(row) + pad + GAP + Glyphs(row) + "\n" == before + Row(row)
  {
    hide Cells, Glyphs, Pad;
    var r1 := INDENT + Cells(row);
    var r2 := r1 + pad;
    var r3 := r2 + GAP;
    var r4 := r3 + Glyphs(row);
    Assoc(before, INDENT, Cells(row));
    Assoc(before, r1, pad);
    Assoc(before, r2, GAP);
    Assoc(before, r3, Glyphs(row));
    Assoc(before, r4, "\n");
  }

  /** The start of the row that holds the byte before index `i`. */
  function RowStart(i: nat): (b: nat)
    requires i > 0
    ensures b % WIDTH == 0 && b < i <= b + WIDTH
  {
    (i - 1) / WIDTH * WIDTH
  }

  /** What the flat loop has printed on reaching index `i`: the current row still lacks its text. */
  function Sofar(data: seq<byte>, i: nat): string
    requires i <= |data|
  {
    if i == 0 then "" else Dump(data[..RowStart(i)]) + INDENT + Cells(data[RowStart(i)..i])
  }

  /** Ending the current row completes the dump of what is printed. */
  lemma EndRow(data: seq<byte>, i: nat, pad: string)
    requires 0 < i <= |data| && pad == Pad(WIDTH - (i - RowStart(i)))
    ensures Sofar(data, i) + pad + GAP + Glyphs(data[RowStart(i)..i]) + "\n" == Dump(data[..i])
  {
    hide Row, Cells, Glyphs, Pad, RowStart;
    var b := RowStart(i);
    var row := data[b..i];
    AppendRow(Dump(data[..b]), row, pad);
    DumpSplit(data[..b], row);
    assert data[..i] == data[..b] + row;
  }

  lemma NextCell(data: seq<byte>, i: nat)
    requires i < |data|
    ensures Sofar(data, i + 1) == (if i % WIDTH == 0 then Dump(data[..i]) + INDENT else Sofar(data, i)) + Cell(data[i])
  {
    hide Row, Cell, Dump;
    var b := RowStart(i + 1);
    var row := data[b..i + 1];
    assert row[..|row| - 1] == data[b..i];
    assert Cells(row) == Cells(data[b..i]) + Cell(data[i]);
    var before := Dump(data[..b]) + INDENT;
    assert before + (Cells(data[b..i]) + Cell(data[i])) == before + Cells(data[b..i]) + Cell(data[i]);
    if i % WIDTH == 0 {
      assert b == i && before + Cells(data[i..i]) == before;
    } else {
      assert b == RowStart(i);
    }
  }

  /** The text of data[lo..hi], one character per turn: the inner loop over `j`. */
  method PrintGlyphs(data: seq<byte>, lo: nat, hi: nat, out0: string) returns (out: string)
    requires lo <= hi <= |data|
    ensures out == out0 + Glyphs(data[lo..hi])
  {
    out := out0;
    for j := lo to hi
      invariant out == out0 + Glyphs(data[lo..j])
    {
      assert data[lo..j + 1][..j - lo] == data[lo..j];
      if 32 <= data[j] < 128 {
        out := out + [data[j] as char];
      } else {
        out := out + ".";
      }
    }
  }

  /** PrintData prints exactly the rows, each rendered on its own. */
  method PrintData(data: seq<byte>) returns (out: string)
    ensures out == Dump(data)
  {
    hide Dump, Sofar, Cells, Glyphs, RowStart, Cell;
    out := "";
    PrintNothing(data);
    for i := 0 to |data|
      invariant out == if 0 < i == |data| then Dump(data) else Sofar(data, i)
    {
      if i != 0 && i % 16 == 0 {
        RowOf(i);
        EndRow(data, i, "");
        assert out + "" == out;
        out := out + "         ";
        out := PrintGlyphs(data, i - 16, i, out);
        out := out + "\n";
      }
      NextCell(data, i);
      if i % 16 == 0 {
        out := out + "   ";
      }
      out := out + Cell(data[i]);
      if i == |data| - 1 {
        RowOf(i + 1);
        for j := 0 to 15 - i % 16
          invariant out == Sofar(data, |data|) + Pad(j)
        {
          out := out + "   ";
        }
        EndRow(data, |data|, Pad(15 - i % 16));
        out := out + "         ";
        out := PrintGlyphs(data, i - i % 16, i + 1, out);
        out := out + "\n";
        assert data[..|data|] == data;
      }
    }
  }

  lemma RowOf(i: nat)
    requires i > 0
    ensures RowStart(i) == i - 1 - (i - 1) % 16
    ensures Pad(0) == ""
  {
  }

  lemma PrintNothing(data: seq<byte>)
    ensures Sofar(data, 0) == "" == Dump([]) && Dump(data[..0]) == ""
  {
  }

  // ----- the columns

  /** How many bytes of the row print as eight digits. */
  function High(row: seq<byte>): nat {
    if row == [] then 0 else High(row[..|row| - 1]) + if row[|row| - 1] < 128 then 0 else 1
  }

  lemma {:induction false} CellsLength(row: seq<byte>)
    ensures |Cells(row)| == 3 * |row| + 6 * High(row)
  {
    if row != [] {
      CellsLength(row[..|row| - 1]);
    }
  }

  lemma {:induction false} PadLength(n: nat)
    ensures |Pad(n)| == 3 * n
  {
    if n > 0 {
      PadLength(n - 1);
    }
  }

  function TextOffset(row: seq<byte>): nat
    requires |row| <= WIDTH
  {
    |INDENT + Cells(row) + Pad(WIDTH - |row|) + GAP|
  }

  /** The text column starts at offset 60 exactly in rows without bytes above 127. */
  lemma TextColumnAligned(row: seq<byte>)
    requires |row| <= WIDTH
    ensures TextOffset(row) == 60 <==> forall k :: 0 <= k < |row| ==> row[k] < 128
    ensures TextOffset(row) >= 60
  {
    CellsLength(row);
    PadLength(WIDTH - |row|);
    HighIsZero(row);
  }

  lemma {:induction false} HighIsZero(row: seq<byte>)
    ensures High(row) == 0 <==> forall k :: 0 <= k < |row| ==> row[k] < 128
  {
    if row != [] {
      HighIsZero(row[..|row| - 1]);
    }
  }

  predicate AllLow(data: seq<byte>) {
    forall k :: 0 <= k < |data| ==> data[k] < 128
  }

  lemma {:induction false} GlyphsAt(row: seq<byte>, c: nat)
    ensures |Glyphs(row)| == |row|
    ensures c < |row| ==> Glyphs(row)[c] == Glyph(row[c])
  {
    if row != [] {
      GlyphsAt(row[..|row| - 1], c);
    }
  }

  lemma Front(x: string, y: string, lo: nat, hi: nat)
    requires lo <= hi <= |x|
    ensures (x + y)[lo..hi] == x[lo..hi]
  {
  }

  lemma Back(x: string, y: string, lo: nat, hi: nat)
    requires lo <= hi <= |y|
    ensures (x + y)[|x| + lo..|x| + hi] == y[lo..hi]
  {
  }

  lemma CellsStep(row: seq<byte>)
    requires row != []
    ensures Cells(row) == Cells(row[..|row| - 1]) + Cell(row[|row| - 1])
  {
  }

  lemma LowLengths(row: seq<byte>)
    requires AllLow(row)
    ensures |Cells(row)| == 3 * |row|
  {
    CellsLength(row);
    HighIsZero(row);
  }

  lemma {:induction false} CellsAt(row: seq<byte>, c: nat)
    requires AllLow(row) && c < |row|
    ensures |Cells(row)| == 3 * |row| && Cells(row)[3 * c..3 * c + 3] == Cell(row[c])
  {
    var init, last := row[..|row| - 1], row[|row| - 1];
    CellsStep(row);
    LowLengths(row);
    LowLengths(init);
    hide Cells, Cell;
    if c < |row| - 1 {
      CellsAt(init, c);
      Front(Cells(init), Cell(last), 3 * c, 3 * c + 3);
    } else {
      Back(Cells(init), Cell(last), 0, 3);
    }
  }

  /** The text `t` shows the byte's cell and its character at column `c` of the row starting at `r`. */
  predicate Shows(t: string, r: nat, c: nat, b: byte) {
    r + 60 + c < |t| && c < WIDTH
    && t[r + 3 + 3 * c..r + 6 + 3 * c] == Cell(b) && t[r + 60 + c..r + 61 + c] == [Glyph(b)]
  }

  lemma ShowsInFront(x: string, y: string, r: nat, c: nat, b: byte)
    requires Shows(x, r, c, b)
    ensures Shows(x + y, r, c, b)
  {
    Front(x, y, r + 3 + 3 * c, r + 6 + 3 * c);
    Front(x, y, r + 60 + c, r + 61 + c);
  }

  lemma ShowsBehind(x: string, y: string, r: nat, c: nat, b: byte)
    requires Shows(y, r, c, b)
    ensures Shows(x + y, |x| + r, c, b)
  {
    Back(x, y, r + 3 + 3 * c, r + 6 + 3 * c);
    Back(x, y, r + 60 + c, r + 61 + c);
  }

  function Assembled(cells: string, pad: string, glyphs: string): string {
    INDENT + cells + pad + GAP + glyphs + "\n"
  }

  lemma CellShows(cells: string, pad: string, glyphs: string, k: nat)
    requires k + 3 <= |cells|
    ensures Assembled(cells, pad, glyphs)[3 + k..6 + k] == cells[k..k + 3]
  {
    var u := INDENT + cells;
    Back(INDENT, cells, k, k + 3);
    Front(u, pad, 3 + k, 6 + k);
    Front(u + pad, GAP, 3 + k, 6 + k);
    Front(u + pad + GAP, glyphs, 3 + k, 6 + k);
    Front(u + pad + GAP + glyphs, "\n", 3 + k, 6 + k);
  }

  lemma GlyphShows(cells: string, pad: string, glyphs: string, c: nat)
    requires |cells| + |pad| == 48 && c < |glyphs|
    ensures Assembled(cells, pad, glyphs)[60 + c..61 + c] == glyphs[c..c + 1]
  {
    var v := INDENT + cells + pad + GAP;
    Back(v, glyphs, c, c + 1);
    Front(v + glyphs, "\n", 60 + c, 61 + c);
  }

  /** Where a byte of a row shows: once among the hex cells, once in the text. */
  lemma RowAt(row: seq<byte>, c: nat)
    requires AllLow(row) && c < |row| <= WIDTH
    ensures |Row(row)| == 61 + |row| && Shows(Row(row), 0, c, row[c])
  {
    hide Cells, Glyphs, Pad, Cell, Glyph, High;
    CellsAt(row, c);
    GlyphsAt(row, c);
    PadLength(WIDTH - |row|);
    var cells, glyphs, pad := Cells(row), Glyphs(row), Pad(WIDTH - |row|);
    CellShows(cells, pad, glyphs, 3 * c);
    GlyphShows(cells, pad, glyphs, c);
    assert Row(row) == Assembled(cells, pad, glyphs);
    assert glyphs[c..c + 1] == [Glyph(row[c])];
  }

  lemma DumpFirstRow(data: seq<byte>)
    requires |data| > WIDTH
    ensures Dump(data) == Row(data[..WIDTH]) + Dump(data[WIDTH..])
  {
  }

  lemma NextRowIndex(i: nat)
    requires i >= WIDTH
    ensures 77 * (i / 16) == 77 + 77 * ((i - WIDTH) / 16) && i % 16 == (i - WIDTH) % 16
  {
  }

  /** In a dump of bytes below 128, byte `i` has its hex cell and its character at fixed places. */
  lemma {:induction false} DumpAt(data: seq<byte>, i: nat)
    requires AllLow(data) && i < |data|
    ensures Shows(Dump(data), 77 * (i / 16), i % 16, data[i])
  {
    hide Row, Shows, Cell, Glyph;
    if |data| <= WIDTH {
      RowAt(data, i);
    } else {
      DumpFirstRow(data);
      hide Dump;
      if i < WIDTH {
        RowAt(data[..WIDTH], i);
        ShowsInFront(Row(data[..WIDTH]), Dump(data[WIDTH..]), 0, i, data[i]);
      } else {
        RowLength(data[..WIDTH]);
        DumpAt(data[WIDTH..], i - WIDTH);
        NextRowIndex(i);
        ShowsBehind(Row(data[..WIDTH]), Dump(data[WIDTH..]), 77 * ((i - WIDTH) / 16), i % 16, data[i]);
      }
    }
  }

  lemma RowLength(row: seq<byte>)
    requires AllLow(row) && |row| == WIDTH
    ensures |Row(row)| == 77
  {
    RowAt(row, 0);
  }

  // ----- the hex digits read back

  /** The value of a hexadecimal digit, as it is read anywhere. */
  function HexValue(c: char): int {
    if '0' <= c <= '9' then c as int - '0' as int
    else if 'A' <= c <= 'F' then c as int - 'A' as int + 10
    else -1
  }

  lemma DigitReadsBack(d: int)
    requires 0 <= d < 16
    ensures HexValue(HexDigit(d)) == d
  {
    var digits := "0123456789ABCDEF";
    assert digits[..10] == "0123456789" && digits[10..] == "ABCDEF";
    if d < 10 {
      assert digits[d] == digits[..10][d];
    } else {
      assert digits[d] == digits[10..][d - 10];
    }
  }

  /** The last two characters of a cell are the byte, high digit first, behind a space, or a space and six F. */
  lemma CellReadsBack(b: byte)
    ensures var c := Cell(b);
            && |c| == (if b < 128 then 3 else 9) && c[0] == ' '
            && 16 * HexValue(c[|c| - 2]) + HexValue(c[|c| - 1]) == b
            && forall k :: 1 <= k < |c| - 2 ==> c[k] == 'F'
  {
    DigitReadsBack(b / 16);
    DigitReadsBack(b % 16);
  }

  /** A dump of bytes below 128 can be read back, byte by byte. */
  lemma DumpReadsBack(data: seq<byte>, i: nat)
    requires AllLow(data) && i < |data|
    ensures var t, at := Dump(data), 77 * (i / 16) + 3 + 3 * (i % 16);
            at + 3 <= |t| && t[at] == ' ' && 16 * HexValue(t[at + 1]) + HexValue(t[at + 2]) == data[i]
  {
    hide Dump, Cell, HexValue;
    DumpAt(data, i);
    CellReadsBack(data[i]);
    var t, at := Dump(data), 77 * (i / 16) + 3 + 3 * (i % 16);
    assert t[at] == t[at..at + 3][0] && t[at + 1] == t[at..at + 3][1] && t[at + 2] == t[at..at + 3][2];
  }
}
