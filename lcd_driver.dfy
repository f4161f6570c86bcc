/**
 * The HD44780 driver of main/lcd_driver.c in 4-bit mode: how bytes become
 * nibbles on the data pins, the command sequence of initialisation, clear
 * and cursor placement, and the word-wrapping layout of `LCD_show_lines`.
 * The display is seen through the `gpio_set_level` calls the driver makes,
 * recorded in order by an `Lcd` object, and the register stores of the pin
 * set-up, recorded by a `Registers` object; the delays between them are not
 * modelled.
 */
module LcdDriver {
  import opened Esp
  import opened HardwareLayer

  const Cols: nat := 16                 // LCD_COLS
  const Rows: nat := 2                  // LCD_ROWS
  const CmdFunctionSet: U8 := 0x28      // function set, 4-bit, 2 lines, 5x8 dots
  const CmdDisplayOn: U8 := 0x0C        // display control, display on
  const CmdClear: U8 := 0x01            // clear display
  const CmdEntryMode: U8 := 0x07        // entry mode set | LCD_ENTRY_LEFT
  const SetDdramAddress: U8 := 0x80     // LCD_SET_DDRAM_ADDRESS

  /** `uint8_t`. */
  type U8 = b: int | 0 <= b < 256

  /** `register_select`: the register a byte goes to, as the level of RS. */
  datatype RegisterSelect = Instruction | Data

  /** `lcd_context_t`: the pins of the display. */
  datatype LcdContext = LcdContext(rs: int, en: int, d4: int, d5: int, d6: int, d7: int, cols: nat, rows: nat)

  /** One `gpio_set_level(pin, level)` call. */
  datatype PinLevel = PinLevel(pin: int, level: int)

  /** Bit `k` of `v`, for k in 0..3: `(v >> k) & 1` on a `uint8_t`. */
  function Bit0(v: U8): int { v % 2 }
  function Bit1(v: U8): int { (v / 2) % 2 }
  function Bit2(v: U8): int { (v / 4) % 2 }
  function Bit3(v: U8): int { (v / 8) % 2 }

  /** `refresh_LCD`: the enable pin pulsed low, high, low. */
  function Pulse(en: int): seq<PinLevel>
  {
    [PinLevel(en, 0), PinLevel(en, 1), PinLevel(en, 0)]
  }

  /** `write_4_bits_LCD`: bits 0..3 of `v` on d4..d7, then the enable pulse. */
  function NibblePins(v: U8, c: LcdContext): seq<PinLevel>
  {
    [PinLevel(c.d4, Bit0(v)), PinLevel(c.d5, Bit1(v)),
     PinLevel(c.d6, Bit2(v)), PinLevel(c.d7, Bit3(v))] + Pulse(c.en)
  }

  /** `write_8_bits_LCD`: RS set to the register, then the high nibble (`v >> 4`), then the low nibble (`v & 0x0F`). */
  function BytePins(v: U8, mode: RegisterSelect, c: LcdContext): seq<PinLevel>
  {
    [PinLevel(c.rs, if mode == Instruction then 0 else 1)] + NibblePins(v / 16, c) + NibblePins(v % 16, c)
  }

  /** The value a nibble's four data levels carry: the inverse of `NibblePins`. */
  function NibbleValue(l: seq<PinLevel>): int
    requires |l| >= 4
  {
    l[0].level + 2 * l[1].level + 4 * l[2].level + 8 * l[3].level
  }

  /** `row_offsets`: the DDRAM address of a row's first column; only two rows exist. */
  function RowOffset(row: nat): (r: Option<U8>)
    ensures r.Some? <==> row < Rows
  {
    if row == 0 then Some(0x00) else if row == 1 then Some(0x40) else None
  }

  /**
   * `LCD_SET_DDRAM_ADDRESS | a` narrowed to `uint8_t`: the low eight bits
   * of `a` with bit 7 set.
   */
  function SetAddress(a: nat): (b: U8)
    ensures b >= 0x80 && b % 0x80 == a % 0x80
  {
    var low := a % 256;
    if low >= 0x80 then low else low + 0x80
  }

  /** The DDRAM address `LCD_set_cursor(col, row)` sends, for a row of the display. */
  function CursorAddress(col: U8, row: nat): U8
    requires row < Rows
  {
    SetAddress(col + RowOffset(row).value)
  }

  /** `LCD_set_cursor(col, row)` for a row of the display: the DDRAM address instruction. */
  function CursorPins(col: U8, row: nat, c: LcdContext): seq<PinLevel>
    requires row < Rows
  {
    BytePins(CursorAddress(col, row), Instruction, c)
  }

  /** `LCD_clear`. */
  function ClearPins(c: LcdContext): seq<PinLevel>
  {
    BytePins(CmdClear, Instruction, c)
  }

  /** The byte `(uint8_t)c` of a character. */
  function CharByte(ch: char): U8
  {
    (ch as int) % 256
  }

  /** `LCD_print`: one data byte per character, in order. */
  function TextPins(s: string, c: LcdContext): seq<PinLevel>
  {
    if s == [] then [] else TextPins(s[..|s| - 1], c) + BytePins(CharByte(s[|s| - 1]), Data, c)
  }

  /** The pin levels of the 4-bit entry, the set-up instructions and the cursor home, as `LCD_initialize` sends them. */
  function InitPins(c: LcdContext): seq<PinLevel>
  {
    NibblePins(0x03, c) + NibblePins(0x03, c) + NibblePins(0x03, c) + NibblePins(0x02, c) +
    BytePins(CmdFunctionSet, Instruction, c) + BytePins(CmdDisplayOn, Instruction, c) +
    BytePins(CmdClear, Instruction, c) + BytePins(CmdEntryMode, Instruction, c) +
    CursorPins(0, 0, c)
  }

  /** The six pins of the display, in the order `LCD_initialize` sets them up. */
  function PinsOf(c: LcdContext): seq<int>
  {
    [c.rs, c.en, c.d4, c.d5, c.d6, c.d7]
  }

  /** The configuration stores of `LCD_initialize`, one per pin: plain pins without interrupts. */
  function ConfigWrites(pins: seq<int>): (w: seq<RegWrite>)
    ensures |w| == |pins|
  {
    seq(|pins|, i requires 0 <= i < |pins| => RegWrite(GpioBase + PinReg(U32(pins[i])), ConfigWord(false, false, Disable)))
  }

  /** One store of each pin's mask into the register at offset `reg`. */
  function MaskWrites(reg: int, pins: seq<int>): (w: seq<RegWrite>)
    ensures |w| == |pins|
  {
    seq(|pins|, i requires 0 <= i < |pins| => RegWrite(GpioBase + reg, Mask(UShort(pins[i]))))
  }

  /** Six single stores in a row are the mask stores over the six pins. */
  lemma MaskWritesSix(reg: int, c: LcdContext, w0: seq<RegWrite>, w: seq<RegWrite>)
    requires w == w0 + [RegWrite(GpioBase + reg, Mask(UShort(c.rs)))] + [RegWrite(GpioBase + reg, Mask(UShort(c.en)))]
      + [RegWrite(GpioBase + reg, Mask(UShort(c.d4)))] + [RegWrite(GpioBase + reg, Mask(UShort(c.d5)))]
      + [RegWrite(GpioBase + reg, Mask(UShort(c.d6)))] + [RegWrite(GpioBase + reg, Mask(UShort(c.d7)))]
    ensures w == w0 + MaskWrites(reg, PinsOf(c))
  {
    var m := MaskWrites(reg, PinsOf(c));
    assert w[|w0|..] == m;
  }

  /** The register stores of `LCD_initialize`: configure, make outputs, drive low, each over rs, en, d4..d7. */
  function InitWrites(c: LcdContext): seq<RegWrite>
  {
    ConfigWrites(PinsOf(c)) + MaskWrites(EnW1ts, PinsOf(c)) + MaskWrites(OutW1tc, PinsOf(c))
  }

  /* ------------------------------------------------------------ tokenising */

  /** The length of the token at the head of `s`: up to the first space. */
  function TokenLen(s: string): (n: nat)
    ensures n <= |s| && ' ' !in s[..n] && (n < |s| ==> s[n] == ' ')
  {
    if s == [] || s[0] == ' ' then 0 else 1 + TokenLen(s[1..])
  }

  /** `strtok(s, " ")` run to the end: the maximal runs of non-space characters, in order. */
  function Tokens(s: string): seq<string>
    decreases |s|
  {
    if s == [] then []
    else if s[0] == ' ' then Tokens(s[1..])
    else
      var n := TokenLen(s);
      [s[..n]] + Tokens(s[n..])
  }

  /** The characters of `s` other than spaces: a reference for what the tokens hold. */
  function NonSpaces(s: string): string
  {
    if s == [] then [] else (if s[0] == ' ' then [] else [s[0]]) + NonSpaces(s[1..])
  }

  /** The tokens one after the other. */
  function Concat(ws: seq<string>): string
  {
    if ws == [] then [] else ws[0] + Concat(ws[1..])
  }

  /* ---------------------------------------------------------------- layout */

  /** Where the next word goes. */
  datatype Place = Place(row: nat, col: nat)

  /** What `LCD_show_lines` does for each word: move to a new row, or print a word. */
  datatype Shown = MoveTo(row: nat) | Text(w: string)

  /**
   * The place after word `w` at `p`: a word that does not fit on the line is
   * put at column 0, on the next row while the row is below `lastRow`, and the
   * cursor then moves past the word and one space.
   */
  function Advance(p: Place, w: string, lastRow: nat): Place
  {
    if |w| + p.col > Cols then Place(if p.row < lastRow then p.row + 1 else p.row, |w| + 1)
    else Place(p.row, p.col + |w| + 1)
  }

  /** What placing `w` at `p` shows: the row change of a wrap, then the word and a space. */
  function WordShown(p: Place, w: string, lastRow: nat): seq<Shown>
  {
    (if |w| + p.col > Cols && p.row < lastRow then [MoveTo(p.row + 1)] else []) + [Text(w), Text(" ")]
  }

  /** The place after the words `ws`, starting at row `r0`. */
  function PlaceAfter(ws: seq<string>, r0: nat, lastRow: nat): Place
  {
    if ws == [] then Place(r0, 0) else Advance(PlaceAfter(ws[..|ws| - 1], r0, lastRow), ws[|ws| - 1], lastRow)
  }

  /** What the words `ws` show, starting at row `r0`. */
  function Layout(ws: seq<string>, r0: nat, lastRow: nat): seq<Shown>
  {
    if ws == [] then []
    else Layout(ws[..|ws| - 1], r0, lastRow) + WordShown(PlaceAfter(ws[..|ws| - 1], r0, lastRow), ws[|ws| - 1], lastRow)
  }

  /**
   * The wrap of `LCD_show_lines` as written: the row advances while it is
   * below `LCD_ROWS`, so it can reach 2.
   */
  function LayoutAsWritten(ws: seq<string>, r0: nat): seq<Shown>
  {
    Layout(ws, r0, Rows)
  }

  /** The wrap as intended: the row advances only up to the last row. */
  function LayoutCorrected(ws: seq<string>, r0: nat): seq<Shown>
  {
    Layout(ws, r0, Rows - 1)
  }

  /** Every row a layout moves to is a row of the display. */
  predicate OnScreen(shown: seq<Shown>)
  {
    forall i :: 0 <= i < |shown| && shown[i].MoveTo? ==> shown[i].row < Rows
  }

  /** The pin levels of what a layout shows: a cursor instruction per row change, the bytes of each text. */
  function ShownPins(shown: seq<Shown>, c: LcdContext): seq<PinLevel>
    requires OnScreen(shown)
  {
    if shown == [] then []
    else
      assert OnScreen(shown[..|shown| - 1]);
      ShownPins(shown[..|shown| - 1], c) + ItemPins(shown[|shown| - 1], c)
  }

  /** The pin levels of one shown item: a cursor move to column 0 of its row, or the word's characters. */
  function ItemPins(x: Shown, c: LcdContext): seq<PinLevel>
    requires x.MoveTo? ==> x.row < Rows
  {
    match x
    case MoveTo(r) => CursorPins(0, r, c)
    case Text(w) => TextPins(w, c)
  }

  /** What `LCD_show_lines` sends for word `w` at `p`, with the intended wrap. */
  function WordPins(p: Place, w: string, c: LcdContext): seq<PinLevel>
    requires p.row < Rows
  {
    (if |w| + p.col > Cols && p.row < Rows - 1 then CursorPins(0, p.row + 1, c) else []) +
    TextPins(w, c) + TextPins(" ", c)
  }

  /** What `LCD_show_lines` sends for the words `ws` from row `r0`, with the intended wrap. */
  function ShowPins(ws: seq<string>, r0: nat, c: LcdContext): seq<PinLevel>
    requires r0 < Rows
  {
    if ws == [] then []
    else
      CorrectedOnScreen(ws[..|ws| - 1], r0);
      ShowPins(ws[..|ws| - 1], r0, c) + WordPins(PlaceAfter(ws[..|ws| - 1], r0, Rows - 1), ws[|ws| - 1], c)
  }

  /** `LCD_show_lines` once the copy of the text is made: the optional clear, the first row's cursor, then the words. */
  function ShowLinesPins(lineOffset: nat, text: string, clearFirst: bool, c: LcdContext): seq<PinLevel>
    requires lineOffset < Rows
  {
    (if clearFirst then ClearPins(c) else []) + CursorPins(0, lineOffset, c) + ShowPins(Tokens(text), lineOffset, c)
  }

  /* --------------------------------------------------------------- lemmas */

  /** The four data bits of a byte make up its low nibble. */
  lemma NibbleBits(v: U8)
    ensures Bit0(v) + 2 * Bit1(v) + 4 * Bit2(v) + 8 * Bit3(v) == v % 16
  {
    var r := v % 16;
    var q := v / 16;
    assert v == q * 16 + r;
    if r < 8 {
      assert Bit3(v) == 0 by { assert v / 8 == 2 * q; }
      if r < 4 {
        assert Bit2(v) == 0 by { assert v / 4 == 4 * q; }
        if r < 2 { assert v / 2 == 8 * q; } else { assert v / 2 == 8 * q + 1; }
      } else {
        assert Bit2(v) == 1 by { assert v / 4 == 4 * q + 1; }
        if r < 6 { assert v / 2 == 8 * q + 2; } else { assert v / 2 == 8 * q + 3; }
      }
    } else {
      assert Bit3(v) == 1 by { assert v / 8 == 2 * q + 1; }
      if r < 12 {
        assert Bit2(v) == 0 by { assert v / 4 == 4 * q + 2; }
        if r < 10 { assert v / 2 == 8 * q + 4; } else { assert v / 2 == 8 * q + 5; }
      } else {
        assert Bit2(v) == 1 by { assert v / 4 == 4 * q + 3; }
        if r < 14 { assert v / 2 == 8 * q + 6; } else { assert v / 2 == 8 * q + 7; }
      }
    }
  }

  /** Sending a nibble puts its four bits on d4..d7 in order, and the data levels give the nibble back. */
  lemma NibbleRoundTrip(v: U8, c: LcdContext)
    ensures var l := NibblePins(v, c);
            |l| == 7 && l[0].pin == c.d4 && l[1].pin == c.d5 && l[2].pin == c.d6 && l[3].pin == c.d7 &&
            l[4..] == Pulse(c.en) && NibbleValue(l) == v % 16
  {
    NibbleBits(v);
  }

  /** Sending a byte sets RS to the register and carries the high then the low nibble, which recombine to the byte. */
  lemma ByteRoundTrip(v: U8, mode: RegisterSelect, c: LcdContext)
    ensures var l := BytePins(v, mode, c);
            |l| == 15 && l[0] == PinLevel(c.rs, if mode == Instruction then 0 else 1) &&
            16 * NibbleValue(l[1..8]) + NibbleValue(l[8..15]) == v
  {
    NibbleRoundTrip(v / 16, c);
    NibbleRoundTrip(v % 16, c);
    assert (v / 16) % 16 == v / 16 && (v % 16) % 16 == v % 16;
    var l := BytePins(v, mode, c);
    assert l[1..8] == NibblePins(v / 16, c);
    assert l[8..15] == NibblePins(v % 16, c);
  }

  /** The cursor instruction addresses row 0 from 0x80 and row 1 from 0xC0. */
  lemma CursorAddresses(col: U8)
    requires col < 0x40
    ensures CursorAddress(col, 0) == 0x80 + col && CursorAddress(col, 1) == 0xC0 + col
  {
  }

  /** One more word of `ShowPins`. */
  lemma ShowPinsSnoc(ws: seq<string>, i: nat, r0: nat, c: LcdContext)
    requires i < |ws| && r0 < Rows
    ensures PlaceAfter(ws[..i], r0, Rows - 1).row < Rows
    ensures PlaceAfter(ws[..i + 1], r0, Rows - 1) == Advance(PlaceAfter(ws[..i], r0, Rows - 1), ws[i], Rows - 1) &&
            ShowPins(ws[..i + 1], r0, c) == ShowPins(ws[..i], r0, c) + WordPins(PlaceAfter(ws[..i], r0, Rows - 1), ws[i], c)
  {
    CorrectedOnScreen(ws[..i], r0);
    assert ws[..i + 1][..i] == ws[..i];
  }

  /** Appending is associative. */
  lemma AppendAssoc<T>(a: seq<T>, b: seq<T>, c: seq<T>)
    ensures (a + b) + c == a + (b + c)
  {
  }

  /** Regrouping a run with one more part, on values the solver need not unfold. */
  lemma SnocStep<T>(pa: seq<T>, pi: seq<T>, px: seq<T>, whole: seq<T>, right: seq<T>)
    requires whole == (pa + pi) + px && right == pi + px
    ensures whole == pa + right
  {
  }

  /** Every register store of the pin set-up disables the pin's interrupt and makes it an output driven low. */
  lemma InitWritesMeaning(c: LcdContext)
    ensures var w := InitWrites(c);
            |w| == 18 &&
            forall i :: 0 <= i < 6 ==>
              w[i].addr == GpioBase + PinReg(U32(PinsOf(c)[i])) && (w[i].value >> 13) & 1 == 0 &&
              w[6 + i] == RegWrite(GpioBase + EnW1ts, Mask(UShort(PinsOf(c)[i]))) &&
              w[12 + i] == RegWrite(GpioBase + OutW1tc, Mask(UShort(PinsOf(c)[i])))
  {
    ConfigWordFields(false, false, Disable);
  }

  /** Two layouts on the display make one. */
  lemma OnScreenAppend(a: seq<Shown>, b: seq<Shown>)
    requires OnScreen(a) && OnScreen(b)
    ensures OnScreen(a + b)
  {
    forall i | 0 <= i < |a + b| && (a + b)[i].MoveTo?
      ensures (a + b)[i].row < Rows
    {
      if i >= |a| {
        assert (a + b)[i] == b[i - |a|];
      }
    }
  }

  /** The pin levels of two runs of shown items, one after the other. */
  lemma {:induction false} ShownPinsAppend(a: seq<Shown>, b: seq<Shown>, c: LcdContext)
    requires OnScreen(a) && OnScreen(b)
    ensures OnScreen(a + b) && ShownPins(a + b, c) == ShownPins(a, c) + ShownPins(b, c)
    decreases |b|
  {
    if b == [] {
      assert a + b == a;
    } else {
      var init, x := b[..|b| - 1], b[|b| - 1];
      assert b == init + [x] && a + b == (a + init) + [x];
      assert OnScreen(init) && (x.MoveTo? ==> x.row < Rows);
      ShownPinsAppend(a, init, c);
      ShownPinsSnoc(a + init, x, c);
      ShownPinsSnoc(init, x, c);
      SnocStep(ShownPins(a, c), ShownPins(init, c), ItemPins(x, c), ShownPins(a + b, c), ShownPins(b, c));
    }
  }

  /** One more shown item adds its own pin levels. */
  lemma ShownPinsSnoc(s: seq<Shown>, x: Shown, c: LcdContext)
    requires OnScreen(s) && (x.MoveTo? ==> x.row < Rows)
    ensures OnScreen(s + [x]) && ShownPins(s + [x], c) == ShownPins(s, c) + ItemPins(x, c)
  {
    OnScreenAppend(s, [x]);
    assert (s + [x])[..|s + [x]| - 1] == s;
  }

  /** The pins of one word's layout are the pins `LCD_show_lines` sends for it. */
  lemma WordRender(p: Place, w: string, c: LcdContext)
    requires p.row < Rows
    ensures OnScreen(WordShown(p, w, Rows - 1)) && ShownPins(WordShown(p, w, Rows - 1), c) == WordPins(p, w, c)
  {
    var shown := WordShown(p, w, Rows - 1);
    if |w| + p.col > Cols && p.row < Rows - 1 {
      assert shown == [MoveTo(p.row + 1), Text(w), Text(" ")];
      assert shown[..2] == [MoveTo(p.row + 1), Text(w)] && shown[..2][..1] == [MoveTo(p.row + 1)];
      assert ShownPins(shown[..2][..1], c) == CursorPins(0, p.row + 1, c);
      assert ShownPins(shown[..2], c) == CursorPins(0, p.row + 1, c) + TextPins(w, c);
    } else {
      assert shown == [Text(w), Text(" ")];
      assert shown[..1] == [Text(w)];
      assert ShownPins(shown[..1], c) == TextPins(w, c);
    }
  }

  /** What `LCD_show_lines` sends is the rendering of the corrected layout. */
  lemma {:induction false} ShowPinsRender(ws: seq<string>, r0: nat, c: LcdContext)
    requires r0 < Rows
    ensures OnScreen(LayoutCorrected(ws, r0)) && ShowPins(ws, r0, c) == ShownPins(LayoutCorrected(ws, r0), c)
    decreases |ws|
  {
    CorrectedOnScreen(ws, r0);
    if ws != [] {
      var init := ws[..|ws| - 1];
      var w := ws[|ws| - 1];
      ShowPinsRender(init, r0, c);
      var p := PlaceAfter(init, r0, Rows - 1);
      CorrectedOnScreen(init, r0);
      WordRender(p, w, c);
      ShownPinsAppend(Layout(init, r0, Rows - 1), WordShown(p, w, Rows - 1), c);
    }
  }

  /** Every token is a non-empty run without spaces, and together they hold every non-space character of the text, in order. */
  lemma {:induction false} TokensMeaning(s: string)
    ensures forall i :: 0 <= i < |Tokens(s)| ==> Tokens(s)[i] != [] && ' ' !in Tokens(s)[i]
    ensures Concat(Tokens(s)) == NonSpaces(s)
    decreases |s|
  {
    if s == [] {
    } else if s[0] == ' ' {
      TokensMeaning(s[1..]);
    } else {
      var n := TokenLen(s);
      TokensMeaning(s[n..]);
      NonSpacesSplit(s, n);
      assert Tokens(s) == [s[..n]] + Tokens(s[n..]);
      assert Tokens(s)[1..] == Tokens(s[n..]);
    }
  }

  /** A run without spaces that ends the text or is followed by a space is one whole token. */
  lemma {:induction false} TokenLenRun(w: string, rest: string)
    requires ' ' !in w && (rest == [] || rest[0] == ' ')
    ensures TokenLen(w + rest) == |w|
    decreases |w|
  {
    if w != [] {
      assert w[0] in w;
      assert (w + rest)[1..] == w[1..] + rest;
      assert forall k :: 0 <= k < |w[1..]| ==> w[1..][k] == w[k + 1];
      TokenLenRun(w[1..], rest);
    } else {
      assert w + rest == rest;
    }
  }

  /** A word followed by a space is cut off whole, and the space is dropped. */
  lemma TokensHead(w: string, rest: string)
    requires w != [] && ' ' !in w
    ensures Tokens(w + " " + rest) == [w] + Tokens(rest)
  {
    var s := w + " " + rest;
    TokenLenRun(w, " " + rest);
    assert s == w + (" " + rest);
    assert w[0] in w;
    assert s[..|w|] == w && s[|w|..] == " " + rest;
    assert (" " + rest)[1..] == rest;
  }

  /** A word alone is one token. */
  lemma TokensWord(w: string)
    requires w != [] && ' ' !in w
    ensures Tokens(w) == [w]
  {
    TokenLenRun(w, []);
    assert w + [] == w;
    assert w[0] in w;
    assert w[|w|..] == [];
  }

  /** A text of spaces alone has no token. */
  lemma {:induction false} TokensOfSpaces(s: string)
    requires forall i :: 0 <= i < |s| ==> s[i] == ' '
    ensures Tokens(s) == []
    decreases |s|
  {
    if s != [] {
      assert forall i :: 0 <= i < |s[1..]| ==> s[1..][i] == s[i + 1];
      TokensOfSpaces(s[1..]);
    }
  }

  /** Tokens keep words whole: words written out with a space after each split back into the same words. */
  lemma {:induction false} TokensRoundTrip(ws: seq<string>)
    requires forall i :: 0 <= i < |ws| ==> ws[i] != [] && ' ' !in ws[i]
    ensures Tokens(Spaced(ws)) == ws
    decreases |ws|
  {
    if ws != [] {
      assert ws[0] != [] && ' ' !in ws[0];
      TokensHead(ws[0], Spaced(ws[1..]));
      assert forall i :: 0 <= i < |ws[1..]| ==> ws[1..][i] == ws[i + 1];
      TokensRoundTrip(ws[1..]);
      assert ws == [ws[0]] + ws[1..];
    }
  }

  /** The non-space characters of a token followed by a rest. */
  lemma {:induction false} NonSpacesSplit(s: string, n: nat)
    requires n <= |s| && ' ' !in s[..n]
    ensures NonSpaces(s) == s[..n] + NonSpaces(s[n..])
    decreases n
  {
    if n > 0 {
      assert s[1..][..n - 1] == s[1..n];
      assert ' ' !in s[1..][..n - 1];
      NonSpacesSplit(s[1..], n - 1);
      assert s[1..][n - 1..] == s[n..];
      assert s[..n] == [s[0]] + s[1..n];
    }
  }

  /** The words are shown in order, each followed by one space. */
  lemma {:induction false} LayoutShowsWords(ws: seq<string>, r0: nat, lastRow: nat)
    ensures Texts(Layout(ws, r0, lastRow)) == Spaced(ws)
    decreases |ws|
  {
    if ws != [] {
      var init, w := ws[..|ws| - 1], ws[|ws| - 1];
      var p := PlaceAfter(init, r0, lastRow);
      LayoutShowsWords(init, r0, lastRow);
      assert Layout(ws, r0, lastRow) == Layout(init, r0, lastRow) + WordShown(p, w, lastRow);
      TextsAppend(Layout(init, r0, lastRow), WordShown(p, w, lastRow));
      WordTexts(p, w, lastRow);
      assert ws == init + [w];
      SpacedSnoc(init, w);
      SnocStep(Spaced(init), w, " ", Spaced(ws), w + " ");
    }
  }

  /** A word's layout prints the word and one space, whether or not it wraps. */
  lemma WordTexts(p: Place, w: string, lastRow: nat)
    ensures Texts(WordShown(p, w, lastRow)) == w + " "
  {
    var mv: seq<Shown> := if |w| + p.col > Cols && p.row < lastRow then [MoveTo(p.row + 1)] else [];
    TextsAppend(mv, [Text(w), Text(" ")]);
    assert [Text(w), Text(" ")][..1] == [Text(w)];
    assert Texts([Text(w), Text(" ")]) == w + " ";
    assert Texts(mv) == [];
  }

  /** The text a layout prints, in order. */
  function Texts(shown: seq<Shown>): string
  {
    if shown == [] then [] else Texts(shown[..|shown| - 1]) + (match shown[|shown| - 1] case Text(w) => w case MoveTo(_) => [])
  }

  /** The words, each followed by one space. */
  function Spaced(ws: seq<string>): string
  {
    if ws == [] then [] else ws[0] + " " + Spaced(ws[1..])
  }

  lemma {:induction false} TextsAppend(a: seq<Shown>, b: seq<Shown>)
    ensures Texts(a + b) == Texts(a) + Texts(b)
    decreases |b|
  {
    if b == [] {
      assert a + b == a;
    } else {
      assert (a + b)[..|a + b| - 1] == a + b[..|b| - 1];
      TextsAppend(a, b[..|b| - 1]);
    }
  }

  lemma {:induction false} SpacedSnoc(ws: seq<string>, w: string)
    ensures Spaced(ws + [w]) == Spaced(ws) + w + " "
    decreases |ws|
  {
    if ws == [] {
      assert [w][1..] == [];
    } else {
      assert (ws + [w])[1..] == ws[1..] + [w];
      SpacedSnoc(ws[1..], w);
    }
  }

  /** With the intended wrap the row stays on the display, from any row of the display. */
  lemma {:induction false} CorrectedOnScreen(ws: seq<string>, r0: nat)
    requires r0 < Rows
    ensures OnScreen(LayoutCorrected(ws, r0)) && PlaceAfter(ws, r0, Rows - 1).row < Rows
    decreases |ws|
  {
    if ws != [] {
      var init := ws[..|ws| - 1];
      CorrectedOnScreen(init, r0);
      var p := PlaceAfter(init, r0, Rows - 1);
      var tail := WordShown(p, ws[|ws| - 1], Rows - 1);
      assert OnScreen(tail);
      OnScreenAppend(Layout(init, r0, Rows - 1), tail);
    }
  }

  /** The message the network switch shows when it is left without Wi-Fi (main/web_application.c:297). */
  const ReconnectFailed: string := "Wi-Fi" + " " + "reconnection" + " " + "failed"

  /** Three words with a space between each split back into the three. */
  lemma TokensThree(a: string, b: string, c: string)
    requires a != [] && ' ' !in a && b != [] && ' ' !in b && c != [] && ' ' !in c
    ensures Tokens(a + " " + (b + " " + c)) == [a, b, c]
  {
    TokensWord(c);
    TokensHead(b, c);
    TokensHead(a, b + " " + c);
  }

  /** The message splits into its three words. */
  lemma ReconnectFailedWords()
    ensures Tokens(ReconnectFailed) == ["Wi-Fi", "reconnection", "failed"]
  {
    var a, b, c := "Wi-Fi", "reconnection", "failed";
    assert ReconnectFailed == a + " " + (b + " " + c);
    TokensThree(a, b, c);
  }

  /**
   * As written, the message "Wi-Fi reconnection failed" from row 0 wraps
   * twice and asks for row 2, beyond `row_offsets`: the cursor instruction
   * then reads past the end of the array.
   */
  lemma AsWrittenLeavesScreen()
    ensures var ws := Tokens(ReconnectFailed);
            ws == ["Wi-Fi", "reconnection", "failed"] &&
            MoveTo(2) in LayoutAsWritten(ws, 0) && RowOffset(2).None? && !OnScreen(LayoutAsWritten(ws, 0))
  {
    ReconnectFailedWords();
    var a, b, w := "Wi-Fi", "reconnection", "failed";
    var ws := [a, b, w];
    assert ws[..2] == [a, b] && [a, b][..1] == [a] && [a][..0] == [];
    assert PlaceAfter([a], 0, Rows) == Place(0, 6);
    assert PlaceAfter([a, b], 0, Rows) == Place(1, 13);
    var l := LayoutAsWritten(ws, 0);
    assert l == Layout([a, b], 0, Rows) + [MoveTo(2), Text(w), Text(" ")];
    assert l[|l| - 3] == MoveTo(2);
  }

  /** The same text with the intended wrap stays on row 1. */
  lemma CorrectedStaysOnScreen()
    ensures var ws := Tokens(ReconnectFailed);
            MoveTo(2) !in LayoutCorrected(ws, 0) && OnScreen(LayoutCorrected(ws, 0))
  {
    CorrectedOnScreen(Tokens(ReconnectFailed), 0);
  }

  /* ---------------------------------------------------------------- the display */

  /** The display as the driver drives it: the `gpio_set_level` calls made, in order. */
  class Lcd {
    var levels: seq<PinLevel>

    constructor ()
      ensures levels == []
    {
      levels := [];
    }

    /** `refresh_LCD`. */
    method Refresh(en: int)
      modifies this
      ensures levels == old(levels) + Pulse(en)
    {
      levels := levels + [PinLevel(en, 0)];
      levels := levels + [PinLevel(en, 1)];
      levels := levels + [PinLevel(en, 0)];
    }

    /** `write_4_bits_LCD`. */
    method Write4(v: U8, c: LcdContext)
      modifies this
      ensures levels == old(levels) + NibblePins(v, c)
    {
      var b0 := v % 2;
      var b1 := (v / 2) % 2;
      var b2 := (v / 4) % 2;
      var b3 := (v / 8) % 2;
      levels := levels + [PinLevel(c.d4, b0), PinLevel(c.d5, b1), PinLevel(c.d6, b2), PinLevel(c.d7, b3)];
      Refresh(c.en);
    }

    /** `write_8_bits_LCD`. */
    method Write8(v: U8, mode: RegisterSelect, c: LcdContext)
      modifies this
      ensures levels == old(levels) + BytePins(v, mode, c)
    {
      levels := levels + [PinLevel(c.rs, if mode == Instruction then 0 else 1)];
      Write4(v / 16, c);
      Write4(v % 16, c);
    }

    /**
     * `LCD_initialize`: the six pins configured without interrupts, made
     * outputs and driven low, then the 4-bit entry, the set-up instructions
     * and the cursor home.
     */
    method Initialize(c: LcdContext, regs: Registers)
      modifies this, regs
      ensures regs.writes == old(regs.writes) + InitWrites(c)
      ensures levels == old(levels) + InitPins(c)
    {
      ConfigurePins(c, regs);
      OutputPins(c, regs);
      LowPins(c, regs);
      SendInit(c);
    }

    /** The six `config_GPIO` calls of `LCD_initialize`. */
    static method ConfigurePins(c: LcdContext, regs: Registers)
      modifies regs
      ensures regs.writes == old(regs.writes) + ConfigWrites(PinsOf(c))
    {
      regs.ConfigGpio(U32(c.rs), false, false, FiveMa, false, false, Disable);
      regs.ConfigGpio(U32(c.en), false, false, FiveMa, false, false, Disable);
      regs.ConfigGpio(U32(c.d4), false, false, FiveMa, false, false, Disable);
      regs.ConfigGpio(U32(c.d5), false, false, FiveMa, false, false, Disable);
      regs.ConfigGpio(U32(c.d6), false, false, FiveMa, false, false, Disable);
      regs.ConfigGpio(U32(c.d7), false, false, FiveMa, false, false, Disable);
    }

    /** The six `set_output_direction` calls of `LCD_initialize`. */
    static method OutputPins(c: LcdContext, regs: Registers)
      modifies regs
      ensures regs.writes == old(regs.writes) + MaskWrites(EnW1ts, PinsOf(c))
    {
      ghost var w0 := regs.writes;
      regs.SetOutputDirection(UShort(c.rs));
      regs.SetOutputDirection(UShort(c.en));
      regs.SetOutputDirection(UShort(c.d4));
      regs.SetOutputDirection(UShort(c.d5));
      regs.SetOutputDirection(UShort(c.d6));
      regs.SetOutputDirection(UShort(c.d7));
      MaskWritesSix(EnW1ts, c, w0, regs.writes);
    }

    /** The six `set_output_level(.., LOW)` calls of `LCD_initialize`. */
    static method LowPins(c: LcdContext, regs: Registers)
      modifies regs
      ensures regs.writes == old(regs.writes) + MaskWrites(OutW1tc, PinsOf(c))
    {
      ghost var w0 := regs.writes;
      regs.SetOutputLevel(UShort(c.rs), Low);
      regs.SetOutputLevel(UShort(c.en), Low);
      regs.SetOutputLevel(UShort(c.d4), Low);
      regs.SetOutputLevel(UShort(c.d5), Low);
      regs.SetOutputLevel(UShort(c.d6), Low);
      regs.SetOutputLevel(UShort(c.d7), Low);
      MaskWritesSix(OutW1tc, c, w0, regs.writes);
    }

    /** The 4-bit entry, the set-up instructions and the cursor home. */
    method SendInit(c: LcdContext)
      modifies this
      ensures levels == old(levels) + InitPins(c)
    {
      ghost var l0 := levels;
      Write4(0x03, c);
      ghost var p := NibblePins(0x03, c);
      AppendAssoc(l0, p, NibblePins(0x03, c));
      Write4(0x03, c);
      p := p + NibblePins(0x03, c);
      AppendAssoc(l0, p, NibblePins(0x03, c));
      Write4(0x03, c);
      p := p + NibblePins(0x03, c);
      AppendAssoc(l0, p, NibblePins(0x02, c));
      Write4(0x02, c);
      p := p + NibblePins(0x02, c);
      AppendAssoc(l0, p, BytePins(CmdFunctionSet, Instruction, c));
      Write8(CmdFunctionSet, Instruction, c);
      p := p + BytePins(CmdFunctionSet, Instruction, c);
      AppendAssoc(l0, p, BytePins(CmdDisplayOn, Instruction, c));
      Write8(CmdDisplayOn, Instruction, c);
      p := p + BytePins(CmdDisplayOn, Instruction, c);
      AppendAssoc(l0, p, BytePins(CmdClear, Instruction, c));
      Write8(CmdClear, Instruction, c);
      p := p + BytePins(CmdClear, Instruction, c);
      AppendAssoc(l0, p, BytePins(CmdEntryMode, Instruction, c));
      Write8(CmdEntryMode, Instruction, c);
      p := p + BytePins(CmdEntryMode, Instruction, c);
      AppendAssoc(l0, p, CursorPins(0, 0, c));
      SetCursor(0, 0, c);
    }

    /** `LCD_clear`. */
    method Clear(c: LcdContext)
      modifies this
      ensures levels == old(levels) + ClearPins(c)
    {
      Write8(0x01, Instruction, c);
    }

    /** `LCD_set_cursor` for a row of the display. */
    method SetCursor(col: U8, row: nat, c: LcdContext)
      requires row < Rows
      modifies this
      ensures levels == old(levels) + CursorPins(col, row, c)
    {
      var offsets: seq<U8> := [0x00, 0x40];
      Write8(SetAddress(col + offsets[row]), Instruction, c);
    }

    /** `LCD_write_char`. */
    method WriteChar(ch: char, c: LcdContext)
      modifies this
      ensures levels == old(levels) + BytePins(CharByte(ch), Data, c)
    {
      Write8(CharByte(ch), Data, c);
    }

    /** `LCD_print`: the characters as data bytes. */
    method Print(s: string, c: LcdContext)
      modifies this
      ensures levels == old(levels) + TextPins(s, c)
    {
      for i := 0 to |s|
        invariant levels == old(levels) + TextPins(s[..i], c)
      {
        assert s[..i + 1][..i] == s[..i];
        AppendAssoc(old(levels), TextPins(s[..i], c), BytePins(CharByte(s[i]), Data, c));
        WriteChar(s[i], c);
      }
      assert s[..|s|] == s;
    }

    /** One word of `LCD_show_lines`: the wrap, then the word and a space; returns the new place. */
    method ShowWord(row: nat, col: nat, w: string, c: LcdContext) returns (row': nat, col': nat)
      requires row < Rows
      modifies this
      ensures levels == old(levels) + WordPins(Place(row, col), w, c)
      ensures Place(row', col') == Advance(Place(row, col), w, Rows - 1) && row' < Rows
    {
      ghost var l0 := levels;
      ghost var x := if |w| + col > Cols && row < Rows - 1 then CursorPins(0, row + 1, c) else [];
      assert l0 + [] == l0;
      row', col' := row, col;
      if |w| + col' > Cols {
        if row' < Rows - 1 {
          row' := row' + 1;
          SetCursor(0, row', c);
        }
        col' := 0;
      }
      assert levels == l0 + x;
      AppendAssoc(l0, x, TextPins(w, c));
      Print(w, c);
      AppendAssoc(l0, x + TextPins(w, c), TextPins(" ", c));
      Print(" ", c);
      col' := col' + |w| + 1;
    }

    /**
     * `LCD_show_lines` with the intended wrap: nothing when the copy of the
     * text cannot be allocated; otherwise the optional clear, the cursor at
     * the first row, then each word and a space, moving to the next row at a
     * wrap while there is one.
     */
    method ShowLines(lineOffset: nat, text: string, c: LcdContext, clearFirst: bool, allocOk: bool)
      requires lineOffset < Rows
      modifies this
      ensures levels == old(levels) + (if allocOk then ShowLinesPins(lineOffset, text, clearFirst, c) else [])
    {
      if !allocOk {
        return;
      }
      ghost var l0 := levels;
      ghost var head := (if clearFirst then ClearPins(c) else []) + CursorPins(0, lineOffset, c);
      assert l0 + [] == l0;
      if clearFirst {
        Clear(c);
      }
      AppendAssoc(l0, if clearFirst then ClearPins(c) else [], CursorPins(0, lineOffset, c));
      SetCursor(0, lineOffset, c);
      AppendAssoc(l0, head, ShowPins(Tokens(text), lineOffset, c));
      ShowWords(Tokens(text), lineOffset, c);
    }

    /** The word loop of `LCD_show_lines`: the words from row `lineOffset`, column 0. */
    method ShowWords(words: seq<string>, lineOffset: nat, c: LcdContext)
      requires lineOffset < Rows
      modifies this
      ensures levels == old(levels) + ShowPins(words, lineOffset, c)
    {
      var row: nat := lineOffset;
      var col: nat := 0;
      for i := 0 to |words|
        invariant row < Rows && Place(row, col) == PlaceAfter(words[..i], lineOffset, Rows - 1)
        invariant levels == old(levels) + ShowPins(words[..i], lineOffset, c)
      {
        ShowPinsSnoc(words, i, lineOffset, c);
        AppendAssoc(old(levels), ShowPins(words[..i], lineOffset, c), WordPins(Place(row, col), words[i], c));
        row, col := ShowWord(row, col, words[i], c);
      }
      assert words[..|words|] == words;
    }
  }
}
