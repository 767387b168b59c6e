/**
  The text driver of the SSD1306 display, and the controller it drives: the bytes sent by
  the driver move a page and a column pointer and fill 8 pages of 128 columns. The
  controller follows the Solomon Systech SSD1306 datasheet, sections 10.1.1, 10.1.2,
  10.1.3 and 10.1.13, in page addressing mode, which is its mode after reset and which
  the driver never leaves.
 */
module Display {
  import opened CInt
  import opened Font

  const PAGES := 8
  const COLUMNS := 128
  const DISPLAY_OFF := 0xAE
  const DISPLAY_ON := 0xAF

  type Page = p: seq<byte> | |p| == COLUMNS witness seq(COLUMNS, _ => 0)

  const BLANK_PAGE: Page := seq(COLUMNS, _ => 0)

  type Ram = r: seq<Page> | |r| == PAGES witness seq<Page>(PAGES, _ => BLANK_PAGE)

  /** start: the column start address set by the two nibble commands; args: command bytes
      still due as arguments of the last opcode. */
  datatype Chip = Chip(on: bool, page: nat, col: nat, start: nat, args: nat, ram: Ram) {
    predicate Valid() { page < PAGES && col < COLUMNS && start < 256 }
  }

  /** The number of argument bytes of the opcodes that have any. */
  function ArgCount(cmd: byte): nat {
    if cmd == 0x20 || cmd == 0x81 || cmd == 0x8D || cmd == 0xA8 || cmd == 0xD3
       || cmd == 0xD5 || cmd == 0xD9 || cmd == 0xDA || cmd == 0xDB then 1
    else if cmd == 0x21 || cmd == 0x22 || cmd == 0xA3 then 2
    else if cmd == 0x29 || cmd == 0x2A then 5
    else if cmd == 0x26 || cmd == 0x27 then 6
    else 0
  }

  function AtStart(c: Chip, start: nat): Chip { c.(start := start, col := start % COLUMNS) }

  /** The controller takes one command byte. */
  function Command(c: Chip, cmd: byte): (r: Chip)
    ensures c.Valid() ==> r.Valid()
  {
    if c.args > 0 then c.(args := c.args - 1)
    else if cmd <= 0x0F then AtStart(c, c.start / 16 * 16 + cmd)
    else if cmd <= 0x1F then AtStart(c, (cmd - 0x10) * 16 + c.start % 16)
    else if 0xB0 <= cmd <= 0xB7 then c.(page := cmd - 0xB0)
    else if cmd == DISPLAY_OFF then c.(on := false)
    else if cmd == DISPLAY_ON then c.(on := true)
    else c.(args := ArgCount(cmd))
  }

  /** The commands the driver uses, by their codes. */
  lemma CommandsOfDatasheet(c: Chip, n: nat)
    requires c.args == 0 && n < 16
    ensures Command(c, 0xAE) == c.(on := false) && Command(c, 0xAF) == c.(on := true)
    ensures n < 8 ==> Command(c, 0xB0 + n) == c.(page := n)
    ensures Command(c, n).start == c.start - c.start % 16 + n && Command(c, n).col == Command(c, n).start % 128
    ensures Command(c, 0x10 + n).start == 16 * n + c.start % 16
    ensures Command(c, 0x10 + n).col == Command(c, 0x10 + n).start % 128
  {}

  function Commands(c: Chip, cmds: seq<byte>): (r: Chip)
    ensures c.Valid() ==> r.Valid()
    decreases cmds
  {
    if cmds == [] then c else Commands(Command(c, cmds[0]), cmds[1..])
  }

  lemma OpcodeOrArgument(c: Chip, cmd: byte)
    ensures Command(c, cmd).args == if c.args > 0 then c.args - 1 else ArgCount(cmd)
  {}

  /** From position i on, every opcode of the table is followed by its arguments. */
  predicate CompleteFrom(cmds: seq<byte>, i: nat)
    requires i <= |cmds|
    decreases |cmds| - i
  {
    i == |cmds| || (i + ArgCount(cmds[i]) < |cmds| && CompleteFrom(cmds, i + 1 + ArgCount(cmds[i])))
  }

  lemma {:induction false} TakesArguments(c: Chip, cmds: seq<byte>, i: nat)
    requires i + c.args <= |cmds|
    ensures exists d: Chip :: d.args == 0 && Commands(c, cmds[i..]) == Commands(d, cmds[i + c.args..])
    decreases |cmds| - i
  {
    if c.args > 0 {
      OpcodeOrArgument(c, cmds[i]);
      assert cmds[i..][1..] == cmds[i + 1..];
      TakesArguments(Command(c, cmds[i]), cmds, i + 1);
    }
  }

  lemma {:induction false} CompleteLeavesNothingDue(c: Chip, cmds: seq<byte>, i: nat)
    requires i <= |cmds| && CompleteFrom(cmds, i) && c.args == 0
    ensures Commands(c, cmds[i..]).args == 0
    decreases |cmds| - i
  {
    if i < |cmds| {
      var n := ArgCount(cmds[i]);
      OpcodeOrArgument(c, cmds[i]);
      assert cmds[i..][1..] == cmds[i + 1..];
      TakesArguments(Command(c, cmds[i]), cmds, i + 1);
      var d: Chip :| d.args == 0 && Commands(Command(c, cmds[i]), cmds[i + 1..]) == Commands(d, cmds[i + 1 + n..]);
      CompleteLeavesNothingDue(d, cmds, i + 1 + n);
    }
  }

  /** The controller takes one data byte: it goes to the pointer, which moves right and
      from the last column back to the start column. */
  function Data(c: Chip, b: byte): Chip
    requires c.Valid()
  {
    c.(ram := c.ram[c.page := c.ram[c.page][c.col := b]],
       col := if c.col == COLUMNS - 1 then c.start % COLUMNS else c.col + 1)
  }

  function DataAll(c: Chip, bs: seq<byte>): (r: Chip)
    requires c.Valid()
    ensures r.Valid()
    decreases bs
  {
    if bs == [] then c else DataAll(Data(c, bs[0]), bs[1..])
  }

  lemma {:induction false} DataConcat(c: Chip, x: seq<byte>, y: seq<byte>)
    requires c.Valid()
    ensures DataAll(c, x + y) == DataAll(DataAll(c, x), y)
    decreases x
  {
    if x == [] {
      assert x + y == y;
    } else {
      assert (x + y)[1..] == x[1..] + y;
      DataConcat(Data(c, x[0]), x[1..], y);
    }
  }

  lemma DataOne(c: Chip, b: byte)
    requires c.Valid()
    ensures DataAll(c, [b]) == Data(c, b)
  {
    assert [b][1..] == [];
  }

  lemma DataOn(c: Chip, bs: seq<byte>, i: nat)
    requires c.Valid() && i < |bs|
    ensures DataAll(c, bs[..i + 1]) == Data(DataAll(c, bs[..i]), bs[i])
  {
    DataConcat(c, bs[..i], [bs[i]]);
    assert bs[..i] + [bs[i]] == bs[..i + 1];
    DataOne(DataAll(c, bs[..i]), bs[i]);
  }

  /** Bytes that fit on the line land side by side on the current page, nothing else
      changes, and the pointer follows. */
  lemma {:induction false} DataLands(c: Chip, bs: seq<byte>, p: nat, k: nat)
    requires c.Valid() && c.col + |bs| <= COLUMNS && p < PAGES && k < COLUMNS
    ensures var r := DataAll(c, bs);
            && r.ram[p][k] == (if p == c.page && c.col <= k < c.col + |bs| then bs[k - c.col] else c.ram[p][k])
            && r.col == (if c.col + |bs| == COLUMNS && bs != [] then c.start % COLUMNS else c.col + |bs|)
            && r == c.(ram := r.ram, col := r.col)
    decreases bs
  {
    if bs != [] {
      var c' := Data(c, bs[0]);
      if |bs| > 1 {
        DataLands(c', bs[1..], p, k);
      } else {
        assert DataAll(c, bs) == c';
      }
    }
  }

  // ---- Glyphs ----

  /** The glyph ssd1306_putc sends: a blank for anything but the codes 32 to 127. */
  function GlyphOf(ch: byte): Glyph { FontEntry(if 32 <= ch <= 127 then ch - 32 else 0) }

  /** A text in a given font. */
  function RenderIn(font: byte -> Glyph, text: seq<byte>): (r: seq<byte>)
    ensures |r| == GLYPH_WIDTH * |text|
  {
    if text == [] then [] else font(text[0]) + RenderIn(font, text[1..])
  }

  function Render(text: seq<byte>): (r: seq<byte>)
    ensures |r| == GLYPH_WIDTH * |text|
  {
    RenderIn(GlyphOf, text)
  }

  lemma OneGlyphOn(k: nat)
    requires k >= GLYPH_WIDTH
    ensures (k - GLYPH_WIDTH) / GLYPH_WIDTH == k / GLYPH_WIDTH - 1
    ensures (k - GLYPH_WIDTH) % GLYPH_WIDTH == k % GLYPH_WIDTH
  {}

  lemma {:induction false} RenderInAt(font: byte -> Glyph, text: seq<byte>, k: nat)
    requires k < GLYPH_WIDTH * |text|
    ensures RenderIn(font, text)[k] == font(text[k / GLYPH_WIDTH])[k % GLYPH_WIDTH]
  {
    var head: seq<byte> := font(text[0]);
    var tail: seq<byte> := RenderIn(font, text[1..]);
    if k >= GLYPH_WIDTH {
      assert (head + tail)[k] == tail[k - GLYPH_WIDTH];
      OneGlyphOn(k);
      assert text[1..][k / GLYPH_WIDTH - 1] == text[k / GLYPH_WIDTH];
      RenderInAt(font, text[1..], k - GLYPH_WIDTH);
    } else {
      assert (head + tail)[k] == head[k];
    }
  }

  lemma RenderAt(text: seq<byte>, k: nat)
    requires k < GLYPH_WIDTH * |text|
    ensures Render(text)[k] == GlyphOf(text[k / GLYPH_WIDTH])[k % GLYPH_WIDTH]
  {
    RenderInAt(GlyphOf, text, k);
  }

  /** The part of a C string before its terminator. */
  function Text(str: seq<byte>): seq<byte> {
    if str == [] || str[0] == 0 then [] else [str[0]] + Text(str[1..])
  }

  /** Whatever the characters, the text ends at the first zero byte. */
  lemma {:induction false} TextEndsAtZero(str: seq<byte>)
    requires 0 in str
    ensures Text(str) <= str && |Text(str)| < |str| && str[|Text(str)|] == 0 && 0 !in Text(str)
  {
    if str[0] != 0 {
      TextEndsAtZero(str[1..]);
    }
  }

  lemma TextUpTo(str: seq<byte>, n: nat)
    requires n < |str| && str[n] == 0 && 0 !in str[..n]
    ensures Text(str) == str[..n]
  {
    TextEndsAtZero(str);
    var k := |Text(str)|;
    assert str[..k] == Text(str);
    forall x | 0 <= x < n ensures str[x] != 0 {
      assert str[..n][x] == str[x];
    }
    forall x | 0 <= x < k ensures str[x] != 0 {
      assert str[..k][x] == str[x];
    }
  }

  // ---- Positioning ----

  function Positioned(c: Chip, column: nat, row: nat): (r: Chip)
    ensures c.Valid() ==> r.Valid()
  {
    var c1 := Command(c, (0xB0 + row) % 256);
    var c2 := Command(c1, (8 * column) % 16);
    Command(c2, 0x10 + (8 * column) / 16 % 16)
  }

  /** The nibbles recombine to column 8 * column exactly for the sixteen text columns, on
      any of the eight pages. */
  lemma PositionExactness(c: Chip, column: nat, row: nat)
    requires c.Valid() && c.args == 0 && row < PAGES
    ensures var r := Positioned(c, column, row);
            && r == c.(page := row, start := r.start, col := r.start % COLUMNS) && r.Valid()
            && (r.col == 8 * column <==> column < 16)
  {
    var low, high := (8 * column) % 16, (8 * column) / 16 % 16;
    Nibbles(column);
    var c1 := Command(c, (0xB0 + row) % 256);
    assert c1 == c.(page := row);
    var c2 := Command(c1, low);
    LowNibble(c1, low);
    HighNibble(c2, high);
  }

  lemma OfSixteen(q: nat, x: nat)
    requires x < 16
    ensures (16 * q + x) / 16 == q && (16 * q + x) % 16 == x
  {}

  /** The two nibbles give a start address whose column is 8 * column below column 16 only. */
  lemma Nibbles(column: nat)
    ensures var low, high := (8 * column) % 16, (8 * column) / 16 % 16;
            0 <= low < 16 && 0 <= high < 16 && ((high * 16 + low) % COLUMNS == 8 * column <==> column < 16)
  {
    var q, x := column / 2, 8 * (column % 2);
    assert 8 * column == 16 * q + x;
    OfSixteen(q, x);
    var start := q % 16 * 16 + x;
    if q < 16 {
      assert q % 16 == q;
    } else {
      assert 8 * column >= COLUMNS > start % COLUMNS;
    }
  }

  lemma LowNibble(c: Chip, low: byte)
    requires c.Valid() && c.args == 0 && low < 16
    ensures Command(c, low) == c.(start := Command(c, low).start, col := Command(c, low).col)
    ensures Command(c, low).start % 16 == low && Command(c, low).Valid()
  {}

  lemma HighNibble(c: Chip, high: byte)
    requires c.Valid() && c.args == 0 && high < 16
    ensures Command(c, 0x10 + high) == AtStart(c, high * 16 + c.start % 16)
  {}

  // ---- Whole operations ----

  predicate AllZero(r: Ram) { forall p, k :: 0 <= p < PAGES && 0 <= k < COLUMNS ==> r[p][k] == 0 }

  /** The byte at page p, column k after text was printed at a text position. */
  function PrintedByte(before: Ram, column: nat, row: nat, text: seq<byte>, p: nat, k: nat): byte
    requires p < PAGES && k < COLUMNS
  {
    if p == row && 8 * column <= k < 8 * (column + |text|)
    then GlyphOf(text[(k - 8 * column) / 8])[(k - 8 * column) % 8]
    else before[p][k]
  }

  /** The glyphs of text lie side by side from the text position; nothing else differs. */
  predicate PrintedAt(before: Ram, after: Ram, column: nat, row: nat, text: seq<byte>) {
    forall p, k :: 0 <= p < PAGES && 0 <= k < COLUMNS ==>
      after[p][k] == PrintedByte(before, column, row, text, p, k)
  }

  lemma PrintLandsAt(q: Chip, column: nat, text: seq<byte>, p: nat, k: nat)
    requires q.Valid() && q.col == 8 * column && column + |text| <= 16 && p < PAGES && k < COLUMNS
    ensures DataAll(q, Render(text)).ram[p][k] == PrintedByte(q.ram, column, q.page, text, p, k)
  {
    DataLands(q, Render(text), p, k);
    if 8 * column <= k < 8 * (column + |text|) {
      RenderAt(text, k - 8 * column);
    }
  }

  lemma PrintLandsFrom(q: Chip, column: nat, text: seq<byte>)
    requires q.Valid() && (q.col == 8 * column || text == []) && column + |text| <= 16
    ensures var r := DataAll(q, Render(text));
            PrintedAt(q.ram, r.ram, column, q.page, text) && r.page == q.page && r.args == q.args && r.on == q.on
  {
    if text != [] {
      DataLands(q, Render(text), 0, 0);
      forall p, k | 0 <= p < PAGES && 0 <= k < COLUMNS
        ensures DataAll(q, Render(text)).ram[p][k] == PrintedByte(q.ram, column, q.page, text, p, k)
      {
        PrintLandsAt(q, column, text, p, k);
      }
    }
  }

  lemma PrintLands(c: Chip, column: nat, row: nat, text: seq<byte>)
    requires c.Valid() && c.args == 0 && row < PAGES && column + |text| <= 16
    ensures var r := DataAll(Positioned(c, column, row), Render(text));
            PrintedAt(c.ram, r.ram, column, row, text) && r.page == row && r.args == 0 && r.on == c.on
  {
    PositionExactness(c, column, row);
    PrintLandsFrom(Positioned(c, column, row), column, text);
  }

  const INIT_COMMANDS: seq<byte> := [
    0xAE, 0x00, 0x10, 0x40, 0xB0, 0x81, 0xCF, 0xA1, 0xA6, 0xA8, 0x3F, 0xC8, 0xD3, 0x00,
    0xD5, 0x80, 0xD9, 0xF1, 0xDA, 0x12, 0xDB, 0x40, 0x8D, 0x14, 0xAF
  ]

  class Driver {
    var chip: Chip

    predicate Valid()
      reads this
    {
      chip.Valid() && chip.args == 0
    }

    constructor (c: Chip)
      ensures chip == c
    {
      chip := c;
    }

    method SendCommand(cmd: byte)
      modifies this
      ensures chip == Command(old(chip), cmd)
    {
      chip := Command(chip, cmd);
    }

    method SendData(b: byte)
      requires chip.Valid()
      modifies this
      ensures chip == Data(old(chip), b)
    {
      chip := Data(chip, b);
    }

    method SetPosition(column: nat, row: nat)
      modifies this
      ensures chip == Positioned(old(chip), column, row)
      ensures old(Valid()) && row < PAGES ==>
                Valid() && chip.page == row && chip.ram == old(chip.ram) && chip.on == old(chip.on)
                && (chip.col == 8 * column <==> column < 16)
    {
      if Valid() && row < PAGES {
        PositionExactness(chip, column, row);
      }
      SendCommand((0xB0 + row) % 256);
      SendCommand((8 * column) % 16);
      SendCommand(0x10 + (8 * column) / 16 % 16);
    }

    method Putc(c: byte)
      requires chip.Valid()
      modifies this
      ensures chip == DataAll(old(chip), GlyphOf(c))
      ensures chip == DataAll(old(chip), if 32 <= c < 128 then FontEntry(c - 32) else FontEntry(0))
      ensures chip.Valid()
    {
      var ch := c;
      if ch < 32 || ch > 127 {
        ch := 32;
      }
      ch := ch - 32;
      ghost var g := GlyphOf(c);
      for i := 0 to 8
        invariant chip == DataAll(old(chip), g[..i])
        invariant chip.Valid()
      {
        var data := FontEntry(ch)[i];
        DataOn(old(chip), g, i);
        SendData(data);
      }
      assert g[..8] == g;
    }

    method Puts(str: seq<byte>)
      requires chip.Valid() && 0 in str
      modifies this
      ensures chip == DataAll(old(chip), Render(Text(str)))
      ensures forall n :: 0 <= n < |str| && str[n] == 0 && 0 !in str[..n] ==>
                chip == DataAll(old(chip), Render(str[..n]))
      ensures chip.Valid()
    {
      forall n | 0 <= n < |str| && str[n] == 0 && 0 !in str[..n] ensures Text(str) == str[..n] {
        TextUpTo(str, n);
      }
      var i := 0;
      assert str[0..] == str;
      while str[i] != 0
        invariant 0 <= i < |str| && 0 in str[i..]
        invariant chip.Valid()
        invariant DataAll(chip, Render(Text(str[i..]))) == DataAll(old(chip), Render(Text(str)))
        decreases |str| - i
      {
        assert str[i..][1..] == str[i + 1..];
        assert Text(str[i..])[1..] == Text(str[i + 1..]);
        DataConcat(chip, GlyphOf(str[i]), Render(Text(str[i + 1..])));
        Putc(str[i]);
        i := i + 1;
      }
    }

    /** set_position followed by puts. */
    method PrintAt(column: nat, row: nat, str: seq<byte>)
      requires Valid() && 0 in str && row < PAGES && column + |Text(str)| <= 16
      modifies this
      ensures Valid() && chip.on == old(chip.on) && chip.page == row
      ensures PrintedAt(old(chip.ram), chip.ram, column, row, Text(str))
      ensures forall n :: 0 <= n < |str| && str[n] == 0 && 0 !in str[..n] ==>
                PrintedAt(old(chip.ram), chip.ram, column, row, str[..n])
    {
      forall n | 0 <= n < |str| && str[n] == 0 && 0 !in str[..n] ensures Text(str) == str[..n] {
        TextUpTo(str, n);
      }
      PrintLands(chip, column, row, Text(str));
      PositionExactness(chip, column, row);
      SetPosition(column, row);
      Puts(str);
    }

    /** The inner loop of ssd1306_clear_display. */
    method PutBlanks()
      requires chip.Valid()
      modifies this
      ensures chip == DataAll(old(chip), Render(seq(16, _ => 32)))
      ensures chip.Valid()
    {
      for i := 0 to 16
        invariant chip == DataAll(old(chip), Render(seq(i, _ => 32)))
        invariant chip.Valid()
      {
        var blanks: seq<byte> := seq(i, _ => 32);
        RenderConcat(blanks, [32]);
        assert blanks + [32] == seq(i + 1, _ => 32);
        assert Render([32]) == GlyphOf(32);
        DataConcat(old(chip), Render(blanks), GlyphOf(32));
        Putc(32);
      }
    }

    method ClearDisplay()
      requires Valid()
      modifies this
      ensures Valid() && AllZero(chip.ram) && chip.on
      ensures chip.page == 0 && chip.col == 0
    {
      SendCommand(DISPLAY_OFF);
      for j := 0 to 8
        invariant Valid()
        invariant forall p, k :: 0 <= p < j && 0 <= k < COLUMNS ==> chip.ram[p][k] == 0
      {
        LineStart(chip, j);
        SetPosition(0, j);
        ghost var q := chip;
        PutBlanks();
        BlankLine(q);
      }
      SendCommand(DISPLAY_ON);
      LineStart(chip, 0);
      SetPosition(0, 0);
    }

    /** The loop of ssd1306_init over its command table. */
    method SendCommands(cmds: seq<byte>)
      modifies this
      ensures chip == Commands(old(chip), cmds)
    {
      for i := 0 to |cmds|
        invariant Commands(chip, cmds[i..]) == Commands(old(chip), cmds)
      {
        assert cmds[i..][1..] == cmds[i + 1..];
        SendCommand(cmds[i]);
      }
    }

    method Init()
      requires Valid()
      modifies this
      ensures Valid() && AllZero(chip.ram) && chip.on
      ensures chip.page == 0 && chip.col == 0
    {
      SendCommands(INIT_COMMANDS);
      InitLeavesNoArgumentDue(old(chip));
      ClearDisplay();
    }
  }

  lemma {:induction false} RenderInConcat(font: byte -> Glyph, x: seq<byte>, y: seq<byte>)
    ensures RenderIn(font, x + y) == RenderIn(font, x) + RenderIn(font, y)
  {
    if x == [] {
      assert x + y == y;
    } else {
      var first: seq<byte> := font(x[0]);
      assert (x + y)[0] == x[0] && (x + y)[1..] == x[1..] + y;
      RenderInConcat(font, x[1..], y);
      var more, last := RenderIn(font, x[1..]), RenderIn(font, y);
      assert first + (more + last) == (first + more) + last;
    }
  }

  lemma RenderConcat(x: seq<byte>, y: seq<byte>)
    ensures Render(x + y) == Render(x) + Render(y)
  {
    RenderInConcat(GlyphOf, x, y);
  }

  lemma LineStart(c: Chip, row: nat)
    requires c.Valid() && c.args == 0 && row < PAGES
    ensures Positioned(c, 0, row) == c.(page := row, start := 0, col := 0)
  {
    PositionExactness(c, 0, row);
  }

  /** Sixteen blanks from column 0 zero the page and leave the others alone. */
  lemma BlankLine(c: Chip)
    requires c.Valid() && c.col == 0 && c.start == 0
    ensures var r := DataAll(c, Render(seq(16, _ => 32)));
            && r == c.(ram := r.ram, col := 0)
            && forall p, k :: 0 <= p < PAGES && 0 <= k < COLUMNS ==>
                 r.ram[p][k] == if p == c.page then 0 else c.ram[p][k]
  {
    var blanks: seq<byte> := seq(16, _ => 32);
    var r := DataAll(c, Render(blanks));
    DataLands(c, Render(blanks), 0, 0);
    BlankEntry();
    forall p, k | 0 <= p < PAGES && 0 <= k < COLUMNS
      ensures r.ram[p][k] == if p == c.page then 0 else c.ram[p][k]
    {
      DataLands(c, Render(blanks), p, k);
      RenderAt(blanks, k);
    }
  }

  lemma InitTableEndsComplete()
    ensures CompleteFrom(INIT_COMMANDS, 11)
  {
    assert CompleteFrom(INIT_COMMANDS, 24);
    assert CompleteFrom(INIT_COMMANDS, 22);
    assert CompleteFrom(INIT_COMMANDS, 20);
    assert CompleteFrom(INIT_COMMANDS, 18);
    assert CompleteFrom(INIT_COMMANDS, 16);
    assert CompleteFrom(INIT_COMMANDS, 14);
    assert CompleteFrom(INIT_COMMANDS, 12);
    assert CompleteFrom(INIT_COMMANDS, 11);
  }

  lemma InitTableIsComplete()
    ensures CompleteFrom(INIT_COMMANDS, 0)
  {
    InitTableEndsComplete();
    assert CompleteFrom(INIT_COMMANDS, 9);
    assert CompleteFrom(INIT_COMMANDS, 8);
    assert CompleteFrom(INIT_COMMANDS, 7);
    assert CompleteFrom(INIT_COMMANDS, 5);
    assert CompleteFrom(INIT_COMMANDS, 4);
    assert CompleteFrom(INIT_COMMANDS, 3);
    assert CompleteFrom(INIT_COMMANDS, 2);
    assert CompleteFrom(INIT_COMMANDS, 1);
  }

  lemma InitLeavesNoArgumentDue(c: Chip)
    requires c.args == 0
    ensures CompleteFrom(INIT_COMMANDS, 0) && Commands(c, INIT_COMMANDS).args == 0
  {
    InitTableIsComplete();
    CompleteLeavesNothingDue(c, INIT_COMMANDS, 0);
    assert INIT_COMMANDS[0..] == INIT_COMMANDS;
  }
}
