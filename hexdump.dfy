/**
 * The line layout shared by the two `prettyBuffer` hex dumps: every byte
 * becomes a cell, and cells are grouped sixteen to a line whatever the
 * `width` argument is. A JavaScript test `offset % m === 0` is false when
 * `m` is 0 (the remainder is NaN) and otherwise depends only on `|m|`.
 */
module HexDump {
  import opened JsText

  type byte = x: int | 0 <= x < 256

  /** What the `every` column pushes: a blank (common) or the padded offset (misc). */
  datatype Style = BlankGroups | OffsetGroups

  predicate IsMultiple(offset: nat, m: int)
  {
    m != 0 && offset % (if m < 0 then -m else m) == 0
  }

  /** `' ' + byte.toString(16).padStart(2, '0')`, written out for one byte. */
  function ByteText(b: byte): (r: string)
    ensures |r| == 3 && r[0] == ' '
  {
    " " + [DigitChar(b / 16), DigitChar(b % 16)]
  }

  /** The closed form is `' ' + byte.toString(16).padStart(2, '0')`, and shows two hex digits. */
  lemma ByteTextShape(b: byte)
    ensures ByteText(b) == " " + PadStart(Hex(b), 2, '0')
    ensures IsDigit(ByteText(b)[1], 16) && IsDigit(ByteText(b)[2], 16)
  {
    HexOfByteIsShort(b);
    DigitCharValue(b / 16);
    DigitCharValue(b % 16);
    var h := Hex(b);
    if b < 16 {
      assert h == [DigitChar(b)];
      assert PadStart(h, 2, '0') == ['0', DigitChar(b)];
    } else {
      assert h == NatToString(b / 16, 16) + [DigitChar(b % 16)];
      assert NatToString(b / 16, 16) == [DigitChar(b / 16)];
    }
  }

  lemma HexOfByteIsShort(b: byte)
    ensures |Hex(b)| <= 2
  {
    if b >= 16 {
      assert Hex(b) == NatToString(b / 16, 16) + [DigitChar(b % 16)];
      assert b / 16 < 16;
    }
  }

  /** The offset column opening a line of `width` bytes. */
  function WidthColumn(offset: nat, width: int): string
  {
    if IsMultiple(offset, width) then PadStart(Hex(offset), 4, ' ') + " |" else ""
  }

  /** The group separator pushed every `every` bytes. */
  function EveryColumn(style: Style, offset: nat, every: int): string
  {
    if IsMultiple(offset, every) then
      match style
      case BlankGroups => " "
      case OffsetGroups => PadStart(Hex(offset), 2, '0')
    else ""
  }

  /** The text one byte at `offset` contributes to its line. */
  function Cell(style: Style, offset: nat, b: byte, every: int, width: int): string
  {
    WidthColumn(offset, width) + EveryColumn(style, offset, every) + ByteText(b)
  }

  /** Every byte contributes exactly one `' ' + two hex digits` group at the end of its cell. */
  lemma CellEndsWithByte(style: Style, offset: nat, b: byte, every: int, width: int)
    ensures var c := Cell(style, offset, b, every, width);
      |c| >= 3 && c[|c| - 3..] == ByteText(b)
  {
  }

  /** The cells of all bytes of `buf`, in order. */
  function CellTexts(style: Style, buf: seq<byte>, every: int, width: int): (r: seq<string>)
    ensures |r| == |buf|
  {
    if buf == [] then []
    else CellTexts(style, buf[..|buf| - 1], every, width) + [Cell(style, |buf| - 1, buf[|buf| - 1], every, width)]
  }

  /** The cells at `lo` up to, not including, `hi`, joined. */
  function Joined(cells: seq<string>, lo: nat, hi: nat): string
    requires lo <= hi <= |cells|
    decreases hi
  {
    if lo == hi then "" else Joined(cells, lo, hi - 1) + cells[hi - 1]
  }

  function LineCount(n: nat): nat
  {
    (n + 15) / 16
  }

  function LineEnd(n: nat, k: nat): nat
  {
    if 16 * k + 16 <= n then 16 * k + 16 else n
  }

  /** A line holds at most sixteen cells, and all lines but the last hold exactly sixteen. */
  lemma LineSpan(n: nat, k: nat)
    requires k < LineCount(n)
    ensures 16 * k < LineEnd(n, k) <= 16 * k + 16 && LineEnd(n, k) <= n
    ensures k + 1 < LineCount(n) ==> LineEnd(n, k) == 16 * k + 16
  {
  }

  /** Line `k`: the cells of bytes `16k` up to the line's end. */
  function Line(cells: seq<string>, k: nat): string
    requires k < LineCount(|cells|)
  {
    LineSpan(|cells|, k);
    Joined(cells, 16 * k, LineEnd(|cells|, k))
  }

  /** The first `m` lines. */
  function LinesBefore(cells: seq<string>, m: nat): (r: seq<string>)
    requires m <= LineCount(|cells|)
    ensures |r| == m
  {
    if m == 0 then [] else LinesBefore(cells, m - 1) + [Line(cells, m - 1)]
  }

  /** The dump lines of `buf`. */
  function Lines(style: Style, buf: seq<byte>, every: int, width: int): (r: seq<string>)
    ensures |r| == LineCount(|buf|)
  {
    LinesBefore(CellTexts(style, buf, every, width), LineCount(|buf|))
  }

  /** Line `k` of the dump is the cells of bytes `16k` up to the line's end. */
  lemma {:induction false} LineAt(cells: seq<string>, m: nat, k: nat)
    requires k < m <= LineCount(|cells|)
    ensures LinesBefore(cells, m)[k] == Line(cells, k)
    decreases m
  {
    if k < m - 1 {
      LineAt(cells, m - 1, k);
    }
  }

  /** The cell of byte `i` is its column texts followed by the byte. */
  lemma {:induction false} CellAt(style: Style, buf: seq<byte>, every: int, width: int, i: nat)
    requires i < |buf|
    ensures CellTexts(style, buf, every, width)[i] == Cell(style, i, buf[i], every, width)
    decreases |buf|
  {
    if i < |buf| - 1 {
      var init := buf[..|buf| - 1];
      CellAt(style, init, every, width, i);
      assert init[i] == buf[i];
    }
  }

  /** A line that is followed by further bytes holds sixteen cells. */
  lemma FullLine(cells: seq<string>, k: nat)
    requires 16 * k + 16 <= |cells|
    ensures k < LineCount(|cells|)
    ensures Line(cells, k) == Joined(cells, 16 * k, 16 * k + 16)
  {
    assert LineEnd(|cells|, k) == 16 * k + 16;
  }

  /** The last line holds the bytes after the last multiple of sixteen. */
  lemma LastLine(cells: seq<string>, k: nat)
    requires 16 * k < |cells| < 16 * k + 16
    ensures LineCount(|cells|) == k + 1
    ensures Line(cells, k) == Joined(cells, 16 * k, |cells|)
  {
    assert LineEnd(|cells|, k) == |cells|;
  }

  lemma LineCountOfFull(n: nat, k: nat)
    requires n == 16 * k
    ensures LineCount(n) == k
  {
  }

  /** The pieces `prettyBuffer` pushes for the byte `b` at `offset`. */
  method CellPieces(style: Style, buffer: seq<byte>, offset: nat, every: int, width: int) returns (pieces: seq<string>)
    requires offset < |buffer|
    ensures Concat(pieces) == CellTexts(style, buffer, every, width)[offset]
    ensures 1 <= |pieces| <= 3
  {
    var b := buffer[offset];
    CellAt(style, buffer, every, width, offset);
    var w := WidthColumn(offset, width);
    var e := EveryColumn(style, offset, every);
    var t := ByteText(b);
    pieces := [];
    if IsMultiple(offset, width) {
      pieces := pieces + [w];
    }
    if IsMultiple(offset, every) {
      pieces := pieces + [e];
    }
    pieces := pieces + [t];
    PiecesConcat(w, e, t, IsMultiple(offset, width), IsMultiple(offset, every));
  }

  /** Concatenating the pushed pieces gives the whole cell; a piece not pushed is empty. */
  lemma PiecesConcat(w: string, e: string, t: string, pw: bool, pe: bool)
    requires (!pw ==> w == "") && (!pe ==> e == "")
    ensures Concat((if pw then [w] else []) + (if pe then [e] else []) + [t]) == w + e + t
  {
    assert Concat([t]) == t;
    if pw && pe {
      assert [w] + [e] + [t] == [w, e, t];
      assert Concat([e, t]) == e + t;
    } else if pw {
      assert [w] + [] + [t] == [w, t];
    } else if pe {
      assert [] + [e] + [t] == [e, t];
    } else {
      assert [] + [] + [t] == [t];
    }
  }

  /**
   * The loop of both `prettyBuffer`s: cells are collected into a line that is
   * flushed after every sixteenth byte, and a partial last line is flushed at
   * the end.
   */
  method DumpLines(style: Style, buffer: seq<byte>, every: int, width: int) returns (lines: seq<string>)
    ensures lines == Lines(style, buffer, every, width)
  {
    ghost var cells := CellTexts(style, buffer, every, width);
    lines := [];
    var line: seq<string> := [];
    var offset := 0;
    ghost var full := 0;
    while offset < |buffer|
      invariant 0 <= offset <= |buffer|
      invariant 16 * full <= offset < 16 * full + 16
      invariant full <= LineCount(|cells|) && lines == LinesBefore(cells, full)
      invariant Concat(line) == Joined(cells, 16 * full, offset)
      invariant (line == []) <==> (offset == 16 * full)
    {
      var pieces := CellPieces(style, buffer, offset, every, width);
      Advance(cells, full, offset, line, pieces);
      line := line + pieces;
      Flush(cells, full, offset);
      if (offset + 1) % 16 == 0 {
        lines := lines + [Concat(line)];
        line := [];
        full := full + 1;
      }
      offset := offset + 1;
    }
    Finish(cells, full, line);
    if |line| != 0 {
      lines := lines + [Concat(line)];
    }
  }

  /** One byte of the loop of `DumpLines`: its cell extends the current line. */
  lemma Advance(cells: seq<string>, full: nat, offset: nat, line: seq<string>, pieces: seq<string>)
    requires 16 * full <= offset < |cells|
    requires Concat(line) == Joined(cells, 16 * full, offset)
    requires Concat(pieces) == cells[offset]
    ensures Concat(line + pieces) == Joined(cells, 16 * full, offset + 1)
  {
    ConcatAppend(line, pieces);
  }

  /** The line is complete after a byte whose successor is a multiple of 16. */
  lemma Flush(cells: seq<string>, full: nat, offset: nat)
    requires 16 * full <= offset < 16 * full + 16 && offset < |cells|
    ensures (offset + 1) % 16 == 0 ==>
      full < LineCount(|cells|) && offset + 1 == 16 * (full + 1) &&
      LinesBefore(cells, full) + [Joined(cells, 16 * full, offset + 1)] == LinesBefore(cells, full + 1)
    ensures (offset + 1) % 16 != 0 ==> offset + 1 < 16 * full + 16
  {
    FlushPoint(offset, full);
    if (offset + 1) % 16 == 0 {
      assert offset + 1 == 16 * full + 16;
      FullLine(cells, full);
    }
  }

  /** After the loop of `DumpLines`, the pending line if any is the last one. */
  lemma Finish(cells: seq<string>, full: nat, line: seq<string>)
    requires 16 * full <= |cells| < 16 * full + 16
    requires Concat(line) == Joined(cells, 16 * full, |cells|)
    requires (line == []) <==> (|cells| == 16 * full)
    ensures line != [] ==>
      full < LineCount(|cells|) &&
      LinesBefore(cells, full) + [Concat(line)] == LinesBefore(cells, LineCount(|cells|))
    ensures line == [] ==> full == LineCount(|cells|)
  {
    if line != [] {
      LastLine(cells, full);
    } else {
      LineCountOfFull(|cells|, full);
    }
  }

  /** Inside line `full`, the byte after `offset` starts a new line exactly at the line's end. */
  lemma FlushPoint(offset: nat, full: nat)
    requires 16 * full <= offset < 16 * full + 16
    ensures ((offset + 1) % 16 == 0) <==> (offset + 1 == 16 * full + 16)
  {
    var r := offset - 16 * full;
    assert offset + 1 == 16 * full + (r + 1);
    if r + 1 < 16 {
      assert (offset + 1) % 16 == r + 1;
    }
  }
}
