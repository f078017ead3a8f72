/** The styled-text printer `Text` (src/wconsole/text.h): two print paths
    that first emit the pending cursor moves, then the text, and update the
    three cursor fields differently. */
module TextPrinter {
  import opened GlyphMap

  /** What a print sends to the terminal. The escape bytes of a cursor move,
      of a colour change and of a font's parameters are written by helpers
      that are not part of this model, so they appear here as tokens. */
  datatype Item =
    | Up(lines: int)
    | Right(columns: int)
    | Color
    | FontParams(font: FontType)
    | CodePoint(cp: int)
    | Byte(b: int)

  /** One byte of a C string before its terminator: never NUL, and one
      byte wide, so that `strlen` counts exactly these. */
  type CByte = c: char | 0 < c as int < 256 witness 'A'

  /** The cursor moves a print emits first: up by `vPos` when it is
      positive, then right by `hPos` when it is positive. */
  function Moves(vPos: int, hPos: int): seq<Item> {
    (if vPos > 0 then [Up(vPos)] else []) + (if hPos > 0 then [Right(hPos)] else [])
  }

  function CodePoints(cps: seq<int>): seq<Item> {
    seq(|cps|, i requires 0 <= i < |cps| => CodePoint(cps[i]))
  }

  lemma AppendAssoc<T>(a: seq<T>, b: seq<T>, c: seq<T>)
    ensures a + (b + c) == (a + b) + c
  {
  }

  lemma CodePointsAppend(a: seq<int>, b: seq<int>)
    ensures CodePoints(a + b) == CodePoints(a) + CodePoints(b)
  {
  }

  /** One more character of the styled loop appends its glyph items to
      the buffer built so far. */
  lemma GlyphsStep(head: seq<Item>, s: seq<AsciiChar>, i: nat, font: FontType)
    requires i < |s|
    ensures head + CodePoints(Glyphs(s[..i + 1], font))
         == head + CodePoints(Glyphs(s[..i], font)) + CodePoints(MapGlyph(s[i], font))
  {
    assert s[..i + 1][..i] == s[..i];
    CodePointsAppend(Glyphs(s[..i], font), MapGlyph(s[i], font));
    AppendAssoc(head, CodePoints(Glyphs(s[..i], font)), CodePoints(MapGlyph(s[i], font)));
  }

  /** What `Print` writes for a C string: its bytes as they are, one item
      per byte, not code points. */
  function RawBytes(s: seq<CByte>): seq<Item> {
    seq(|s|, i requires 0 <= i < |s| => Byte(s[i] as int))
  }

  /** An Up move is emitted exactly when `vPos > 0` and a Right move exactly
      when `hPos > 0`, nothing else is emitted, and Up comes first. */
  lemma MovesOrder(vPos: int, hPos: int)
    ensures |Moves(vPos, hPos)| == (if vPos > 0 then 1 else 0) + (if hPos > 0 then 1 else 0)
    ensures Up(vPos) in Moves(vPos, hPos) <==> vPos > 0
    ensures Right(hPos) in Moves(vPos, hPos) <==> hPos > 0
    ensures forall i, j :: 0 <= i < j < |Moves(vPos, hPos)| ==>
              Moves(vPos, hPos)[i].Up? && Moves(vPos, hPos)[j].Right?
    ensures forall it :: it in Moves(vPos, hPos) ==> it == Up(vPos) || it == Right(hPos)
  {
  }

  /** From index `start` on, `out` holds one glyph per character of
      `str`, the k-th being the glyph of the k-th character. */
  predicate GlyphsPlacedAt(out: seq<Item>, start: nat, str: seq<AsciiChar>, font: FontType)
    requires font.Listed()
  {
    start + |str| <= |out| &&
    forall k :: 0 <= k < |str| ==> out[start + k] == CodePoint(MapGlyph(str[k], font)[0])
  }

  /** Index arithmetic on a stream that has had a block appended: the
      k-th item of the block's tail sits after the stream and the head. */
  lemma ItemAfter(before: seq<Item>, head: seq<Item>, tail: seq<Item>, k: nat)
    requires k < |tail|
    ensures (before + (head + tail))[|before| + |head| + k] == tail[k]
  {
  }

  /** Under one of the twelve fonts, the k-th glyph item of a styled
      string is the glyph of its k-th character. */
  lemma GlyphItemAt(str: seq<AsciiChar>, font: FontType, k: nat)
    requires font.Listed() && k < |str|
    ensures |CodePoints(Glyphs(str, font))| == |str|
    ensures CodePoints(Glyphs(str, font))[k] == CodePoint(MapGlyph(str[k], font)[0])
  {
    GlyphsAt(str, font, k);
  }

  /** Where things sit after a styled print under one of the twelve fonts
      has appended its buffer to `before`: the moves, then the font token,
      then exactly one glyph per input character, the k-th glyph being that
      of the k-th character. */
  lemma StyledBufferLayout(before: seq<Item>, vPos: int, hPos: int, str: seq<AsciiChar>, font: FontType)
    requires font.Listed()
    ensures var out := before + (Moves(vPos, hPos) + [FontParams(font)] + CodePoints(Glyphs(str, font)));
      && |out| == |before| + |Moves(vPos, hPos)| + 1 + |str|
      && out[|before| + |Moves(vPos, hPos)|] == FontParams(font)
      && GlyphsPlacedAt(out, |before| + |Moves(vPos, hPos)| + 1, str, font)
  {
    var head := Moves(vPos, hPos) + [FontParams(font)];
    var items := CodePoints(Glyphs(str, font));
    var out := before + (head + items);
    forall k | 0 <= k < |str|
      ensures out[|before| + |head| + k] == CodePoint(MapGlyph(str[k], font)[0])
    {
      GlyphItemAt(str, font, k);
      ItemAfter(before, head, items, k);
    }
  }

  /** The styled loop: appends the glyph of each character of `str`, in
      order, to `buff`. */
  method AppendGlyphs(buff: seq<Item>, str: seq<AsciiChar>, f: FontType) returns (r: seq<Item>)
    ensures r == buff + CodePoints(Glyphs(str, f))
  {
    r := buff;
    for i := 0 to |str|
      invariant r == buff + CodePoints(Glyphs(str[..i], f))
    {
      GlyphsStep(buff, str, i, f);
      r := r + CodePoints(MapGlyph(str[i], f));
    }
    assert str[..|str|] == str;
  }

  class Text {
    /** Pending upward move, consumed by the next print. */
    var vPos: int
    /** Pending rightward move, consumed by the next print. */
    var hPos: int
    /** The column reached on the current line. */
    var hGlobalPos: int
    /** The font of `PrintText(str)`. */
    var font: FontType
    /** Everything printed so far. */
    var output: seq<Item>

    constructor(fontType: FontType := Monospace)
      ensures font == fontType
      ensures vPos == 0 && hPos == 0 && hGlobalPos == 0 && output == []
    {
      font := fontType;
      vPos, hPos, hGlobalPos := 0, 0, 0;
      output := [];
    }

    /** Plain print of a C string: the moves, the colour, the bytes as
        they are. Clears the horizontal move only, and advances the column
        by the string's length. */
    method PrintCString(s: seq<CByte>)
      modifies this
      ensures output == old(output) + (Moves(old(vPos), old(hPos)) + [Color] + RawBytes(s))
      ensures vPos == old(vPos) && hPos == 0
      ensures hGlobalPos == (if old(hPos) > 0 then old(hPos) else old(hGlobalPos)) + |s|
      ensures font == old(font)
    {
      if vPos > 0 {
        output := output + [Up(vPos)];
      }
      if hPos > 0 {
        hGlobalPos := hPos;
        output := output + [Right(hPos)];
      }
      output := output + [Color];
      assert output == old(output) + (Moves(old(vPos), old(hPos)) + [Color]);
      output := output + RawBytes(s);
      AppendAssoc(old(output), Moves(old(vPos), old(hPos)) + [Color], RawBytes(s));
      hPos := 0;
      hGlobalPos := hGlobalPos + |s|;
    }

    /** Styled print in the object's own font. */
    method PrintText(str: seq<AsciiChar>)
      modifies this
      ensures output == old(output) + (Moves(old(vPos), old(hPos)) + [FontParams(font)] + CodePoints(Glyphs(str, font)))
      ensures vPos == 0 && hPos == 0
      ensures hGlobalPos == if old(hPos) > 0 then old(hPos) else old(hGlobalPos)
      ensures font == old(font)
    {
      PrintTextWithFont(str, font);
    }

    /** Styled print: builds one buffer of the moves, the font's parameters
        and the substituted glyphs, prints it, then clears both pending
        moves. The column is not advanced by the text. */
    method PrintTextWithFont(str: seq<AsciiChar>, f: FontType)
      modifies this
      ensures output == old(output) + (Moves(old(vPos), old(hPos)) + [FontParams(f)] + CodePoints(Glyphs(str, f)))
      ensures vPos == 0 && hPos == 0
      ensures hGlobalPos == if old(hPos) > 0 then old(hPos) else old(hGlobalPos)
      ensures font == old(font)
    {
      var buff: seq<Item> := [];
      if vPos > 0 {
        buff := buff + [Up(vPos)];
      }
      if hPos > 0 {
        hGlobalPos := hPos;
        buff := buff + [Right(hPos)];
      }
      buff := buff + [FontParams(f)];
      assert buff == Moves(old(vPos), old(hPos)) + [FontParams(f)];
      buff := AppendGlyphs(buff, str, f);
      output := output + buff;
      vPos := 0;
      hPos := 0;
    }
  }

  /** The stream of the scenario below, one print's items after another,
      written out flat. */
  lemma PlainPrintOutput(r1: seq<Item>, r2: seq<Item>, r3: seq<Item>, out: seq<Item>)
    requires out == [] + (Moves(0, 3) + [Color] + r1)
                       + (Moves(0, 0) + [Color] + r2)
                       + (Moves(0, 5) + [Color] + r3)
    ensures out == [Right(3), Color] + r1 + [Color] + r2 + [Right(5), Color] + r3
  {
    assert Moves(0, 3) == [Right(3)];
    assert Moves(0, 0) == [];
    assert Moves(0, 5) == [Right(5)];
    var first := [Right(3), Color] + r1;
    var second := first + ([Color] + r2);
    assert out == second + ([Right(5), Color] + r3);
    AppendAssoc(first, [Color], r2);
    AppendAssoc(second, [Right(5), Color], r3);
  }

  /** Three plain prints from a fresh printer with a pending rightward move
      of 3, then 0, then 5: moves are emitted by the first and third only,
      and the column ends at 5 plus the third string's length. */
  method PlainPrintScenario(s1: seq<CByte>, s2: seq<CByte>, s3: seq<CByte>) returns (out: seq<Item>, column: int)
    ensures out == [Right(3), Color] + RawBytes(s1)
                 + [Color] + RawBytes(s2)
                 + [Right(5), Color] + RawBytes(s3)
    ensures column == 5 + |s3|
  {
    var t := new Text();
    t.hPos := 3;
    t.PrintCString(s1);
    t.PrintCString(s2);
    t.hPos := 5;
    t.PrintCString(s3);
    PlainPrintOutput(RawBytes(s1), RawBytes(s2), RawBytes(s3), t.output);
    out, column := t.output, t.hGlobalPos;
  }

  /** The stream of the scenario below, one print's items after another,
      written out flat. */
  lemma PendingResetOutput(raw: seq<Item>, glyphs: seq<Item>, out: seq<Item>)
    requires out == [] + (Moves(2, 0) + [Color] + raw)
                       + (Moves(2, 0) + [FontParams(Serif)] + glyphs)
                       + (Moves(0, 0) + [Color] + raw)
    ensures out == [Up(2), Color] + raw + [Up(2), FontParams(Serif)] + glyphs + [Color] + raw
  {
    assert Moves(2, 0) == [Up(2)];
    assert Moves(0, 0) == [];
    var plain := [Up(2), Color] + raw;
    var styled := [Up(2), FontParams(Serif)] + glyphs;
    assert out == plain + styled + ([Color] + raw);
    AppendAssoc(plain, [Up(2), FontParams(Serif)], glyphs);
    AppendAssoc(plain + styled, [Color], raw);
  }

  /** A pending upward move is repeated by every plain print, but consumed
      by the first styled print; the styled print leaves the column where
      the plain print put it. */
  method PendingResetScenario(a: seq<CByte>, b: seq<AsciiChar>) returns (out: seq<Item>, column: int)
    ensures out == [Up(2), Color] + RawBytes(a)
                 + [Up(2), FontParams(Serif)] + CodePoints(Glyphs(b, Serif))
                 + [Color] + RawBytes(a)
    ensures column == 2 * |a|
  {
    var t := new Text(Serif);
    t.vPos := 2;
    t.PrintCString(a);
    t.PrintText(b);
    t.PrintCString(a);
    PendingResetOutput(RawBytes(a), CodePoints(Glyphs(b, Serif)), t.output);
    out, column := t.output, t.hGlobalPos;
  }
}
