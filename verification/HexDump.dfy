/**
 nodes/src/logger_node.c: the hex dump of a frame in a fixed 8192-byte buffer.
 */
module HexDump {
  import opened Bytes
  import opened Decimal

  const DUMP: nat := 8192
  const MAX_NODE_NAME: nat := 64

  // ---------------------------------------------------------------- the text

  /** What `node_create` keeps of a name: `strncpy` of 63 characters, then a NUL. */
  function NodeName(name: string): (s: string)
    ensures s <= name && |s| == if |name| <= 63 then |name| else 63
  {
    if |name| < MAX_NODE_NAME then name else name[..MAX_NODE_NAME - 1]
  }

  /** `"=== %s: Packet #%lu (%zd bytes) ===\n"`. */
  function Header(name: string, number: nat, size: nat): string {
    "=== " + name + ": Packet #" + Print(number) + " (" + Print(size) + " bytes) ===\n"
  }

  function HexDigit(d: nat): (c: char)
    requires d < 16
    ensures c != ' '
  {
    if d < 10 then '0' + d as char else 'a' + (d - 10) as char
  }

  function HexValue(c: char): (d: nat)
    ensures d < 16
  {
    if '0' <= c <= '9' then c as int - '0' as int
    else if 'a' <= c <= 'f' then c as int - 'a' as int + 10
    else 0
  }

  /** `"%04zx: "`, for offsets inside a frame buffer. */
  function Offset(i: nat): (s: string)
    requires i < 0x1_0000
    ensures |s| == 6
  {
    [HexDigit(i / 4096), HexDigit(i / 256 % 16), HexDigit(i / 16 % 16), HexDigit(i % 16), ':', ' ']
  }

  /** `"%02x "`, or three spaces past the end of the row. */
  function Cell(row: Frame, k: nat): (s: string)
    ensures |s| == 3
  {
    if k < |row| then [HexDigit(row[k] / 16), HexDigit(row[k] % 16), ' '] else "   "
  }

  /** The cells of a row from place `k` on. */
  function Cells(row: Frame, k: nat): (s: string)
    requires k <= 16
    ensures |s| == 3 * (16 - k)
    decreases 16 - k
  {
    if k == 16 then "" else Cell(row, k) + Cells(row, k + 1)
  }

  function Glyph(b: byte): char {
    if 32 <= b <= 126 then b as char else '.'
  }

  /** The printable column of a row from place `k` on. */
  function Glyphs(row: Frame, k: nat): (s: string)
    requires k <= |row|
    ensures |s| == |row| - k
    decreases |row| - k
  {
    if k == |row| then "" else [Glyph(row[k])] + Glyphs(row, k + 1)
  }

  /** The bytes of the row that starts at `i`. */
  function Slice(f: Frame, i: nat): (row: Frame)
    requires i < |f|
    ensures 1 <= |row| <= 16
  {
    if |f| - i < 16 then f[i..] else f[i..i + 16]
  }

  /** One row, with its newline unless it is the last. */
  function Row(f: Frame, i: nat): (s: string)
    requires i < |f| < 0x1_0000
    ensures |s| == 57 + |Slice(f, i)| + if i + 16 < |f| then 1 else 0
  {
    Offset(i) + Cells(Slice(f, i), 0) + " |" + Glyphs(Slice(f, i), 0) + "|"
    + if i + 16 < |f| then "\n" else ""
  }

  /** The rows from `i` on. */
  function Body(f: Frame, i: nat): string
    requires |f| < 0x1_0000
    decreases |f| - i
  {
    if i >= |f| then "" else Row(f, i) + Body(f, i + 16)
  }

  // ---------------------------------------------------------------- what a row looks like

  lemma {:induction false} CellAt(row: Frame, k: nat, j: nat)
    requires k <= j < 16 && |row| <= 16
    ensures Cells(row, k)[3 * (j - k)..3 * (j - k) + 3] == Cell(row, j)
    decreases j - k
  {
    hide Cell;
    var s := Cells(row, k);
    assert s == Cell(row, k) + Cells(row, k + 1);
    if k < j {
      CellAt(row, k + 1, j);
      assert s[3..] == Cells(row, k + 1);
      assert s[3 * (j - k)..3 * (j - k) + 3] == s[3..][3 * (j - k - 1)..3 * (j - k - 1) + 3];
    }
  }

  lemma {:induction false} GlyphAt(row: Frame, k: nat, j: nat)
    requires k <= j < |row|
    ensures Glyphs(row, k)[j - k] == if 32 <= row[j] <= 126 then row[j] as char else '.'
    decreases j - k
  {
    if k < j {
      GlyphAt(row, k + 1, j);
    }
  }

  lemma DigitIs(d: nat)
    requires d < 16
    ensures HexDigit(d) == "0123456789abcdef"[d]
  {
  }

  /** Row `i` begins with its offset as four hex digits, a colon and a space. */
  lemma RowOffset(f: Frame, i: nat)
    requires i < |f| < 0x1_0000
    ensures var r, hex := Row(f, i), "0123456789abcdef";
            && r[0] == hex[i / 4096] && r[1] == hex[i / 256 % 16] && r[2] == hex[i / 16 % 16] && r[3] == hex[i % 16]
            && r[4] == ':' && r[5] == ' '
  {
    hide HexDigit, Cells, Glyphs, Slice;
    var o := Offset(i);
    assert Row(f, i)[..6] == o;
    OffsetDigits(i);
    assert forall k :: 0 <= k < 6 ==> Row(f, i)[k] == Row(f, i)[..6][k];
  }

  lemma OffsetDigits(i: nat)
    requires i < 0x1_0000
    ensures var o, hex := Offset(i), "0123456789abcdef";
            && o[0] == hex[i / 4096] && o[1] == hex[i / 256 % 16] && o[2] == hex[i / 16 % 16] && o[3] == hex[i % 16]
            && o[4] == ':' && o[5] == ' '
  {
    hide HexDigit;
    DigitIs(i / 4096);
    DigitIs(i / 256 % 16);
    DigitIs(i / 16 % 16);
    DigitIs(i % 16);
  }

  /**
   Then come 16 places of three characters, each with the two hex digits of a byte and a
   space or blank past the end of the frame, and the bytes as text between bars: printable
   characters as they are and a dot for each other byte. A newline follows every row but
   the last.
   */
  lemma RowLayout(f: Frame, i: nat, k: nat)
    requires i < |f| < 0x1_0000 && k < 16
    ensures var r, hex, n := Row(f, i), "0123456789abcdef", if |f| - i < 16 then |f| - i else 16;
            && |r| == 57 + n + (if i + 16 < |f| then 1 else 0)
            && r[6 + 3 * k..9 + 3 * k] == (if k < n then [hex[f[i + k] / 16], hex[f[i + k] % 16], ' '] else "   ")
            && r[54] == ' ' && r[55] == '|' && r[56 + n] == '|'
            && (k < n ==> r[56 + k] == if 32 <= f[i + k] <= 126 then f[i + k] as char else '.')
            && (i + 16 < |f| ==> r[57 + n] == '\n')
  {
    hide HexDigit, Cell, Cells, Glyphs, Offset, Row;
    var row := Slice(f, i);
    RowParts(f, i);
    RowCell(f, i, k);
    if k < |row| {
      CellDigits(row, k);
      GlyphAt(row, 0, k);
      assert Row(f, i)[56 + k] == Row(f, i)[56..56 + |row|][k];
    } else {
      CellBlank(row, k);
    }
  }

  /** The parts of a row. */
  lemma RowParts(f: Frame, i: nat)
    requires i < |f| < 0x1_0000
    ensures var r, n := Row(f, i), |Slice(f, i)|;
            && r[6..54] == Cells(Slice(f, i), 0) && r[56..56 + n] == Glyphs(Slice(f, i), 0)
            && r[54] == ' ' && r[55] == '|' && r[56 + n] == '|' && (i + 16 < |f| ==> r[57 + n] == '\n')
  {
    hide HexDigit, Cells, Glyphs, Offset, Slice;
  }

  lemma RowCell(f: Frame, i: nat, k: nat)
    requires i < |f| < 0x1_0000 && k < 16
    ensures Row(f, i)[6 + 3 * k..9 + 3 * k] == Cell(Slice(f, i), k)
  {
    hide Cell, Cells, Row;
    RowParts(f, i);
    CellAt(Slice(f, i), 0, k);
    PartOfPart(Row(f, i), 6, 54, 3 * k, 3 * k + 3);
  }

  lemma PartOfPart(s: string, a: nat, b: nat, c: nat, d: nat)
    requires a <= b <= |s| && c <= d <= b - a
    ensures s[a..b][c..d] == s[a + c..a + d]
  {
    forall j | 0 <= j < d - c
      ensures s[a..b][c..d][j] == s[a + c..a + d][j]
    {
      assert s[a..b][c + j] == s[a + c + j];
    }
  }

  lemma CellDigits(row: Frame, k: nat)
    requires k < |row|
    ensures var hex := "0123456789abcdef"; Cell(row, k) == [hex[row[k] / 16], hex[row[k] % 16], ' ']
  {
    hide HexDigit;
    DigitIs(row[k] / 16);
    DigitIs(row[k] % 16);
  }

  lemma CellBlank(row: Frame, k: nat)
    requires k >= |row|
    ensures Cell(row, k) == "   "
  {
  }

  /** For example the header of the seventh frame of a node, with 60 bytes. */
  lemma HeaderExample()
    ensures Header("L", 7, 60) == "=== L: Packet #7 (60 bytes) ===\n"
  {
    hide Print;
    Sixty();
    assert "=== " + "L" + ": Packet #" == "=== L: Packet #";
    assert "7" + " (" + "60" + " bytes) ===\n" == "7 (60 bytes) ===\n";
  }

  lemma Sixty()
    ensures Print(7) == "7" && Print(60) == "60"
  {
    assert Print(6) == "6";
  }

  // ---------------------------------------------------------------- reading it back

  /** The byte that two hex digits denote. */
  function Pair(hi: char, lo: char): byte {
    HexValue(hi) * 16 + HexValue(lo)
  }

  /** The bytes of the leading cells that are not blank. */
  function ReadCells(s: string): seq<byte>
    requires |s| % 3 == 0
    decreases |s|
  {
    if s == [] || s[0] == ' ' then []
    else [Pair(s[0], s[1])] + ReadCells(s[3..])
  }

  /** The bytes that a dump body shows, read from its hex columns alone. */
  function Decode(s: string): seq<byte>
    decreases |s|
  {
    if |s| < 54 then []
    else
      var bs := ReadCells(s[6..54]);
      var rest := 6 + 48 + 2 + |bs| + 1 + 1;
      bs + if rest <= |s| then Decode(s[rest..]) else []
  }

  /** The cells of a row read back as its bytes, with blanks after them or not. */
  lemma {:induction false} CellsReadBack(row: Frame, k: nat)
    requires |row| <= 16 && k <= 16
    ensures ReadCells(Cells(row, k)) == if k <= |row| then row[k..] else []
    decreases 16 - k
  {
    hide HexDigit, HexValue, Cells;
    if k < 16 {
      CellsFrom(row, k);
      CellReads(row, k, Cells(row, k + 1));
      CellsReadBack(row, k + 1);
    } else {
      assert Cells(row, 16) == "";
    }
  }

  lemma CellReads(row: Frame, k: nat, rest: string)
    requires |row| <= 16 && |rest| % 3 == 0
    ensures ReadCells(Cell(row, k) + rest) == if k < |row| then [row[k]] + ReadCells(rest) else []
  {
    hide HexDigit, Pair;
    var s := Cell(row, k) + rest;
    assert s[3..] == rest;
    assert s[0] == Cell(row, k)[0] && s[1] == Cell(row, k)[1];
    assert |s| == 3 + |rest|;
    if k < |row| {
      HexPair(row[k]);
      assert s[0] == HexDigit(row[k] / 16) && s[1] == HexDigit(row[k] % 16);
    }
  }

  lemma HexPair(b: byte)
    ensures Pair(HexDigit(b / 16), HexDigit(b % 16)) == b
  {
  }

  /** The printed body decodes to exactly the bytes it was printed from, a partial last row included. */
  lemma {:induction false} BodyDecodes(f: Frame, i: nat)
    requires |f| < 0x1_0000 && i <= |f|
    ensures Decode(Body(f, i)) == f[i..]
    decreases |f| - i
  {
    hide Row, Cells, ReadCells;
    if i < |f| {
      var row, rest := Slice(f, i), Body(f, i + 16);
      RowCells(f, i);
      CellsReadBack(row, 0);
      DecodeRow(Row(f, i), rest, row);
      if i + 16 < |f| {
        BodyDecodes(f, i + 16);
        assert f[i..] == row + f[i + 16..];
      }
    }
  }

  /** The first row of a body decodes by itself. */
  lemma DecodeRow(r: string, rest: string, row: Frame)
    requires 57 + |row| <= |r| <= 58 + |row| && (|r| == 57 + |row| ==> rest == "")
    requires ReadCells(r[6..54]) == row
    ensures Decode(r + rest) == row + if |r| == 58 + |row| then Decode(rest) else []
  {
    hide ReadCells;
    var s := r + rest;
    assert s[6..54] == r[6..54];
    if |r| == 58 + |row| {
      assert s[58 + |row|..] == rest;
    }
  }

  lemma RowCells(f: Frame, i: nat)
    requires i < |f| < 0x1_0000
    ensures Row(f, i)[6..54] == Cells(Slice(f, i), 0)
  {
    hide Cells, Glyphs;
  }

  /** A dump shows its frame: two frames with one body are equal. */
  lemma BodyIsInjective(f: Frame, g: Frame)
    requires |f| < 0x1_0000 && |g| < 0x1_0000 && Body(f, 0) == Body(g, 0)
    ensures f == g
  {
    BodyDecodes(f, 0);
    BodyDecodes(g, 0);
  }

  // ---------------------------------------------------------------- it fits

  /** Every row takes 58 characters besides its glyphs, and the last one has no newline. */
  lemma {:induction false} BodyLength(f: Frame, i: nat)
    requires |f| < 0x1_0000
    ensures i < |f| ==> |Body(f, i)| == 58 * ((|f| - i + 15) / 16) + (|f| - i) - 1
    ensures i >= |f| ==> |Body(f, i)| == 0
    decreases |f| - i
  {
    hide Row;
    if i < |f| {
      BodyLength(f, i + 16);
    }
  }

  /** Header and body leave room in the buffer, for every name, number and frame the program can print. */
  lemma DumpFits(name: string, number: nat, f: Frame)
    requires number < U64 && |f| <= FRAME_BUFFER
    ensures |Header(NodeName(name), number, |f|)| <= 115
    ensures |Header(NodeName(name), number, |f|)| + |Body(f, 0)| <= 7204 < 8192
  {
    hide Body, Print;
    Print64(number);
    Print4(|f|);
    BodyLength(f, 0);
  }

  // ---------------------------------------------------------------- the code

  lemma Assoc(a: string, b: string, c: string)
    ensures a + (b + c) == (a + b) + c
  {
  }

  lemma CellsFrom(row: Frame, k: nat)
    requires k < 16
    ensures Cells(row, k) == Cell(row, k) + Cells(row, k + 1)
  {
  }

  lemma GlyphsFrom(row: Frame, k: nat)
    requires k < |row|
    ensures Glyphs(row, k) == [Glyph(row[k])] + Glyphs(row, k + 1)
  {
  }

  lemma BodyEnds(f: Frame, i: nat)
    requires |f| <= i && |f| < 0x1_0000
    ensures Body(f, i) == ""
  {
  }

  lemma BodyFrom(f: Frame, i: nat)
    requires i < |f| < 0x1_0000
    ensures Body(f, i) == Row(f, i) + Body(f, i + 16)
  {
  }

  /**
   `snprintf` at `offset`: the number of characters the text has, whether or not
   they fit, and as many of them as fit before a terminating NUL.
   */
  method Snprintf(dump: array<char>, offset: nat, text: string) returns (n: nat)
    requires offset < dump.Length
    modifies dump
    ensures n == |text|
    ensures dump[..offset] == old(dump[..offset])
    ensures offset + |text| < dump.Length ==> dump[..offset + |text|] == old(dump[..offset]) + text
  {
    n := |text|;
    var k := if offset + n < dump.Length then n else dump.Length - 1 - offset;
    for j := 0 to k
      invariant dump[..offset] == old(dump[..offset])
      invariant dump[offset..offset + j] == text[..j]
    {
      dump[offset + j] := text[j];
      assert dump[offset..offset + j + 1] == dump[offset..offset + j] + [text[j]];
    }
    dump[offset + k] := '\0';
    assert text[..n] == text;
    assert k == n ==> dump[..offset + n] == dump[..offset] + dump[offset..offset + n];
  }

  /** Appends `text` if it fits, as every step of `log_packet_hex` does. */
  method Append(dump: array<char>, total: nat, text: string) returns (total': nat, truncated: bool)
    requires dump.Length == DUMP && total < DUMP
    modifies dump
    ensures truncated <==> |text| >= DUMP - total
    ensures truncated ==> total' == total && dump[..total] == old(dump[..total])
    ensures !truncated ==> total' == total + |text| && dump[..total'] == old(dump[..total]) + text
  {
    var n := Snprintf(dump, total, text);
    if n >= DUMP - total {
      return total, true;
    }
    return total + n, false;
  }

  /**
   `log_packet_hex`, without the final print: the buffer holds the header and the
   whole body, and no truncation branch is ever taken.
   */
  method LogPacketHex(name: string, buffer: array<byte>, size: nat, number: nat)
    returns (dump: array<char>, total: nat, truncated: bool)
    requires size <= buffer.Length == FRAME_BUFFER && number < U64
    ensures fresh(dump) && total < dump.Length == 8192
    ensures !truncated
    ensures dump[..total] == Header(NodeName(name), number, size) + Body(buffer[..size], 0)
  {
    hide Row, Header, Body, Cells, Glyphs, HexDigit, Print;
    ghost var f := buffer[..size];
    ghost var head := Header(NodeName(name), number, size);
    DumpFits(name, number, f);
    dump := new char[DUMP](_ => '\0');
    total := 0;
    total, truncated := Append(dump, total, Header(NodeName(name), number, size));
    if truncated {
      return;
    }
    assert dump[..total] == head;
    var i := 0;
    while i < size
      invariant !truncated && 0 <= i <= size + 15
      invariant fresh(dump) && total < dump.Length == DUMP
      invariant |Body(f, i)| >= 0 && total + |Body(f, i)| == |head| + |Body(f, 0)|
      invariant dump[..total] + Body(f, i) == head + Body(f, 0)
      decreases size - i
    {
      ghost var before := dump[..total];
      BodyFrom(f, i);
      total, truncated := AppendRow(dump, total, buffer, size, i);
      if truncated {
        return;
      }
      Assoc(before, Row(f, i), Body(f, i + 16));
      i := i + 16;
    }
    BodyEnds(f, i);
  }

  /** One pass of the outer loop. */
  method AppendRow(dump: array<char>, total: nat, buffer: array<byte>, size: nat, i: nat)
    returns (total': nat, truncated: bool)
    requires dump.Length == DUMP && buffer.Length == FRAME_BUFFER
    requires i < size <= FRAME_BUFFER
    requires total + |Row(buffer[..size], i)| < DUMP
    modifies dump
    ensures !truncated
    ensures total' == total + |Row(buffer[..size], i)|
    ensures dump[..total'] == old(dump[..total]) + Row(buffer[..size], i)
  {
    hide Cells, Glyphs, HexDigit, Slice;
    ghost var f := buffer[..size];
    ghost var row := Slice(f, i);
    ghost var start := dump[..total];
    total', truncated := Append(dump, total, Offset(i));
    if truncated {
      return;
    }
    total', truncated := AppendCells(dump, total', buffer, size, i);
    if truncated {
      return;
    }
    total', truncated := Append(dump, total', " |");
    if truncated {
      return;
    }
    total', truncated := AppendGlyphs(dump, total', buffer, size, i);
    if truncated {
      return;
    }
    total', truncated := Append(dump, total', "|");
    if truncated {
      return;
    }
    Assoc(start, Offset(i), Cells(row, 0));
    Assoc(start, Offset(i) + Cells(row, 0), " |");
    Assoc(start, Offset(i) + Cells(row, 0) + " |", Glyphs(row, 0));
    Assoc(start, Offset(i) + Cells(row, 0) + " |" + Glyphs(row, 0), "|");
    Assoc(start, Offset(i) + Cells(row, 0) + " |" + Glyphs(row, 0) + "|", if i + 16 < |f| then "\n" else "");
    if i + 16 < size {
      total', truncated := Append(dump, total', "\n");
    }
  }

  method AppendCells(dump: array<char>, total: nat, buffer: array<byte>, size: nat, i: nat)
    returns (total': nat, truncated: bool)
    requires dump.Length == DUMP && buffer.Length == FRAME_BUFFER
    requires i < size <= FRAME_BUFFER && total + 48 < DUMP
    modifies dump
    ensures !truncated && total' == total + 48
    ensures dump[..total'] == old(dump[..total]) + Cells(Slice(buffer[..size], i), 0)
  {
    hide Cells, HexDigit;
    ghost var row := Slice(buffer[..size], i);
    ghost var start := dump[..total];
    total', truncated := total, false;
    for j := 0 to 16
      invariant !truncated && total' == total + 3 * j
      invariant dump[..total'] + Cells(row, j) == start + Cells(row, 0)
    {
      ghost var before := dump[..total'];
      if i + j < size {
        total', truncated := Append(dump, total', [HexDigit(buffer[i + j] / 16), HexDigit(buffer[i + j] % 16), ' ']);
      } else {
        total', truncated := Append(dump, total', "   ");
      }
      if truncated {
        return;
      }
      CellsFrom(row, j);
      Assoc(before, Cell(row, j), Cells(row, j + 1));
    }
  }

  method AppendGlyphs(dump: array<char>, total: nat, buffer: array<byte>, size: nat, i: nat)
    returns (total': nat, truncated: bool)
    requires dump.Length == DUMP && buffer.Length == FRAME_BUFFER
    requires i < size <= FRAME_BUFFER && total + |Slice(buffer[..size], i)| < DUMP
    modifies dump
    ensures !truncated && total' == total + |Slice(buffer[..size], i)|
    ensures dump[..total'] == old(dump[..total]) + Glyphs(Slice(buffer[..size], i), 0)
  {
    hide Glyphs, Glyph;
    ghost var row := Slice(buffer[..size], i);
    ghost var start := dump[..total];
    total', truncated := total, false;
    var j := 0;
    while j < 16 && i + j < size
      invariant !truncated && 0 <= j <= |row| && total' == total + j
      invariant dump[..total'] + Glyphs(row, j) == start + Glyphs(row, 0)
    {
      ghost var before := dump[..total'];
      assert row[j] == buffer[i + j];
      total', truncated := Append(dump, total', [Glyph(buffer[i + j])]);
      if truncated {
        return;
      }
      GlyphsFrom(row, j);
      Assoc(before, [Glyph(row[j])], Glyphs(row, j + 1));
      j := j + 1;
    }
    assert Glyphs(row, j) == "";
  }
}
