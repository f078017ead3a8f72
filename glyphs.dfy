/** Glyph substitution of the styled-text printer (src/wconsole/text.h).

    Each input character of a styled print is replaced by a Unicode code
    point chosen by the active font: FullWidth shifts the printable ASCII
    range into the Halfwidth and Fullwidth Forms block, the other fonts move
    letters and digits into the Mathematical Alphanumeric Symbols block, and
    everything else is copied. A font value that none of the `switch`es
    names drops letters and digits. */
module GlyphMap {

  datatype Option<T> = None | Some(value: T)

  /** One byte of the input string. The printer reads the `char`s of a
      `std::string`; the model keeps to 0..127, where `char` has no sign. */
  type AsciiChar = c: char | c as int < 128 witness 'A'

  /** The font selector. The twelve enumerators of `FontType`, plus
      `Unlisted(raw)`: a value the enumeration can hold that no `case` of
      the printer names, which reaches the `default:` branches. */
  datatype FontType =
    | Serif | SerifItal | SerifBold | SerifBoldItal
    | SansSerif | SansSerifItal | SansSerifBold | SansSerifBoldItal
    | Monospace | ScriptBold | FrakturBold | FullWidth
    | Unlisted(raw: int)
  {
    /** One of the twelve enumerators. */
    predicate Listed() { !Unlisted? }

    /** A listed font that styles letters and digits one by one. */
    predicate Mathematical() { Listed() && !FullWidth? }
  }

  predicate IsUpper(c: char) { 'A' <= c <= 'Z' }
  predicate IsLower(c: char) { 'a' <= c <= 'z' }
  predicate IsDigit(c: char) { '0' <= c <= '9' }
  predicate IsAlnum(c: char) { IsUpper(c) || IsLower(c) || IsDigit(c) }

  /** The printable ASCII range that FullWidth shifts. */
  predicate InFullWidthRange(c: char) { 0x21 <= c as int <= 0x7E }

  /** Characters that no rule of the font touches. */
  predicate PassesThrough(c: char, font: FontType) {
    !IsAlnum(c) && !(font.FullWidth? && InFullWidthRange(c))
  }

  /** The code points one input character adds to the buffer: one, or none
      when an unlisted font meets a letter or a digit. */
  function MapGlyph(c: AsciiChar, font: FontType): (r: seq<int>)
    ensures |r| <= 1
    ensures r == [] <==> !font.Listed() && IsAlnum(c)
  {
    if font.FullWidth? && InFullWidthRange(c) then [c as int + 0xFF01 - 0x21]
    else if IsUpper(c) then Appended(UpperGlyph(c, font))
    else if IsLower(c) then Appended(LowerGlyph(c, font))
    else if IsDigit(c) then Appended(DigitGlyph(c, font))
    else [c as int]
  }

  /** What `buff += ...` adds for the outcome of a `switch`: the code point
      of the matching `case`, nothing for `default: break`. */
  function Appended(g: Option<int>): (r: seq<int>)
    ensures |r| <= 1 && (r == [] <==> g.None?)
  {
    match g
    case Some(cp) => [cp]
    case None => []
  }

  /** The `switch` for an upper-case letter. FullWidth has no `case` here:
      it never gets this far with a letter. */
  function UpperGlyph(c: AsciiChar, font: FontType): (g: Option<int>)
    requires IsUpper(c)
    ensures g.Some? <==> font.Mathematical()
  {
    var wc := c as int;
    match font
    case Serif             => Some(wc)
    case SerifItal         => Some(wc + 0x1D434 - 'A' as int)
    case SerifBold         => Some(wc + 0x1D400 - 'A' as int)
    case SerifBoldItal     => Some(wc + 0x1D468 - 'A' as int)
    case SansSerif         => Some(wc + 0x1D5A0 - 'A' as int)
    case SansSerifItal     => Some(wc + 0x1D608 - 'A' as int)
    case SansSerifBold     => Some(wc + 0x1D5D4 - 'A' as int)
    case SansSerifBoldItal => Some(wc + 0x1D63C - 'A' as int)
    case Monospace         => Some(wc + 0x1D670 - 'A' as int)
    case ScriptBold        => Some(wc + 0x1D4D0 - 'A' as int)
    case FrakturBold       => Some(wc + 0x1D56C - 'A' as int)
    case _                 => None
  }

  /** The `switch` for a lower-case letter, with its one irregular entry. */
  function LowerGlyph(c: AsciiChar, font: FontType): (g: Option<int>)
    requires IsLower(c)
    ensures g.Some? <==> font.Mathematical()
  {
    var wc := c as int;
    match font
    case Serif             => Some(wc)
    case SerifItal         => Some(if c == 'h' then 0x1D489 else wc + 0x1D44E - 'a' as int)
    case SerifBold         => Some(wc + 0x1D41A - 'a' as int)
    case SerifBoldItal     => Some(wc + 0x1D482 - 'a' as int)
    case SansSerif         => Some(wc + 0x1D5BA - 'a' as int)
    case SansSerifItal     => Some(wc + 0x1D622 - 'a' as int)
    case SansSerifBold     => Some(wc + 0x1D5EE - 'a' as int)
    case SansSerifBoldItal => Some(wc + 0x1D656 - 'a' as int)
    case Monospace         => Some(wc + 0x1D68A - 'a' as int)
    case ScriptBold        => Some(wc + 0x1D4EA - 'a' as int)
    case FrakturBold       => Some(wc + 0x1D586 - 'a' as int)
    case _                 => None
  }

  /** The `switch` for a digit: seven fonts keep it, four restyle it. */
  function DigitGlyph(c: AsciiChar, font: FontType): (g: Option<int>)
    requires IsDigit(c)
    ensures g.Some? <==> font.Mathematical()
  {
    var wc := c as int;
    match font
    case Serif             => Some(wc)
    case SerifItal         => Some(wc)
    case SerifBoldItal     => Some(wc)
    case SansSerifItal     => Some(wc)
    case SansSerifBoldItal => Some(wc)
    case ScriptBold        => Some(wc)
    case FrakturBold       => Some(wc)
    case SerifBold         => Some(wc + 0x1D7CE - '0' as int)
    case SansSerif         => Some(wc + 0x1D7E2 - '0' as int)
    case SansSerifBold     => Some(wc + 0x1D7EC - '0' as int)
    case Monospace         => Some(wc + 0x1D7F6 - '0' as int)
    case _                 => None
  }

  /** The code points the styled loop appends for a whole string, in order. */
  function Glyphs(s: seq<AsciiChar>, font: FontType): (r: seq<int>)
    ensures |r| <= |s|
    ensures font.Listed() ==> |r| == |s|
  {
    if s == [] then [] else Glyphs(s[..|s| - 1], font) + MapGlyph(s[|s| - 1], font)
  }

  // ---------------------------------------------------------------------
  // The substitution table read column by column: where each font puts
  // 'A', 'a' and '0'. Serif and the fonts that keep digits put them where
  // ASCII has them.

  function UpperBase(font: FontType): int
    requires font.Mathematical()
  {
    match font
    case Serif             => 'A' as int
    case SerifItal         => 0x1D434
    case SerifBold         => 0x1D400
    case SerifBoldItal     => 0x1D468
    case SansSerif         => 0x1D5A0
    case SansSerifItal     => 0x1D608
    case SansSerifBold     => 0x1D5D4
    case SansSerifBoldItal => 0x1D63C
    case Monospace         => 0x1D670
    case ScriptBold        => 0x1D4D0
    case FrakturBold       => 0x1D56C
  }

  function LowerBase(font: FontType): int
    requires font.Mathematical()
  {
    match font
    case Serif             => 'a' as int
    case SerifItal         => 0x1D44E
    case SerifBold         => 0x1D41A
    case SerifBoldItal     => 0x1D482
    case SansSerif         => 0x1D5BA
    case SansSerifItal     => 0x1D622
    case SansSerifBold     => 0x1D5EE
    case SansSerifBoldItal => 0x1D656
    case Monospace         => 0x1D68A
    case ScriptBold        => 0x1D4EA
    case FrakturBold       => 0x1D586
  }

  function DigitBase(font: FontType): int
    requires font.Mathematical()
  {
    match font
    case SerifBold     => 0x1D7CE
    case SansSerif     => 0x1D7E2
    case SansSerifBold => 0x1D7EC
    case Monospace     => 0x1D7F6
    case _             => '0' as int
  }

  // ---------------------------------------------------------------------
  // The inverse: reading a styled code point back as the character it
  // stands for.

  /** The character a code point stands for under `font`, if any. */
  function Unmap(cp: int, font: FontType): Option<AsciiChar> {
    if font.FullWidth? && 0xFF01 <= cp <= 0xFF5E then
      Some((cp - 0xFF01 + 0x21) as char)
    else if font.SerifItal? && cp == 0x1D489 then
      Some('h')
    else if font.Mathematical() && UpperBase(font) <= cp < UpperBase(font) + 26 then
      Some((cp - UpperBase(font) + 'A' as int) as char)
    else if font.Mathematical() && LowerBase(font) <= cp < LowerBase(font) + 26 then
      Some((cp - LowerBase(font) + 'a' as int) as char)
    else if font.Mathematical() && DigitBase(font) <= cp < DigitBase(font) + 10 then
      Some((cp - DigitBase(font) + '0' as int) as char)
    else if 0 <= cp < 128 && PassesThrough(cp as char, font) then
      Some(cp as char)
    else
      None
  }

  /** Reads a whole code-point sequence back, failing on the first code
      point that no character of `font` produces. */
  function Decode(cps: seq<int>, font: FontType): Option<seq<AsciiChar>> {
    if cps == [] then Some([])
    else
      match Decode(cps[..|cps| - 1], font)
      case None => None
      case Some(prefix) =>
        match Unmap(cps[|cps| - 1], font)
        case None => None
        case Some(c) => Some(prefix + [c])
  }

  /** The codes of the characters an unlisted font keeps: all but letters
      and digits, in order. */
  function Unstyled(s: seq<AsciiChar>): seq<int> {
    if s == [] then []
    else Unstyled(s[..|s| - 1]) + (if IsAlnum(s[|s| - 1]) then [] else [s[|s| - 1] as int])
  }

  // ---------------------------------------------------------------------
  // Properties of the substitution.

  /** FullWidth shifts every printable character, letters and digits
      included, by 0xFF01 - 0x21, and lands in the Fullwidth Forms. */
  lemma FullWidthRule(c: AsciiChar)
    requires InFullWidthRange(c)
    ensures MapGlyph(c, FullWidth) == [c as int + 0xFF01 - 0x21]
    ensures 0xFF01 <= MapGlyph(c, FullWidth)[0] <= 0xFF5E
  {
  }

  /** A character that is neither a letter nor a digit, and that the
      FullWidth rule does not catch, is copied whatever the font. */
  lemma PassThroughRule(c: AsciiChar, font: FontType)
    requires PassesThrough(c, font)
    ensures MapGlyph(c, font) == [c as int]
  {
  }

  /** An upper-case letter moves by the font's offset for 'A'. */
  lemma UpperLetterRule(c: AsciiChar, font: FontType)
    requires font.Mathematical() && IsUpper(c)
    ensures MapGlyph(c, font) == [c as int - 'A' as int + UpperBase(font)]
  {
  }

  /** A lower-case letter moves by the font's offset for 'a', except the
      italic 'h'. */
  lemma LowerLetterRule(c: AsciiChar, font: FontType)
    requires font.Mathematical() && IsLower(c)
    requires !(font.SerifItal? && c == 'h')
    ensures MapGlyph(c, font) == [c as int - 'a' as int + LowerBase(font)]
  {
  }

  /** The one irregular entry: italic 'h' is the fixed code point 0x1D489,
      which is also what the bold italic font gives for 'h'. */
  lemma SerifItalH()
    ensures MapGlyph('h', SerifItal) == [0x1D489]
    ensures MapGlyph('h', SerifItal) == MapGlyph('h', SerifBoldItal)
    ensures MapGlyph('h', SerifItal)[0] != 'h' as int - 'a' as int + LowerBase(SerifItal)
  {
  }

  /** A digit moves by the font's offset for '0'; exactly the four fonts
      SerifBold, SansSerif, SansSerifBold and Monospace restyle digits. */
  lemma DigitRule(c: AsciiChar, font: FontType)
    requires font.Mathematical() && IsDigit(c)
    ensures MapGlyph(c, font) == [c as int - '0' as int + DigitBase(font)]
    ensures MapGlyph(c, font) == [c as int] <==> font !in {SerifBold, SansSerif, SansSerifBold, Monospace}
  {
  }

  /** Serif is the identity on every character. */
  lemma SerifIsIdentity(c: AsciiChar)
    ensures MapGlyph(c, Serif) == [c as int]
  {
  }

  /** Every font other than Serif moves letters into the Mathematical
      Alphanumeric Symbols block (U+1D400..U+1D7FF) or, for FullWidth,
      into the Fullwidth Forms (U+FF01..U+FF5E). */
  lemma LettersLeaveAscii(c: AsciiChar, font: FontType)
    requires font.Listed() && !font.Serif? && (IsUpper(c) || IsLower(c))
    ensures font.FullWidth? ==> 0xFF01 <= MapGlyph(c, font)[0] <= 0xFF5E
    ensures font.Mathematical() ==> 0x1D400 <= MapGlyph(c, font)[0] <= 0x1D7FF
  {
  }

  /** Reading back a substituted letter or digit gives it back; one lemma
      per class of character keeps each proof small. */
  lemma UnmapUpper(c: AsciiChar, font: FontType)
    requires IsUpper(c) && font.Listed()
    ensures Unmap(MapGlyph(c, font)[0], font) == Some(c)
  {
  }

  lemma UnmapLower(c: AsciiChar, font: FontType)
    requires IsLower(c) && font.Listed()
    ensures Unmap(MapGlyph(c, font)[0], font) == Some(c)
  {
  }

  lemma UnmapDigit(c: AsciiChar, font: FontType)
    requires IsDigit(c) && font.Listed()
    ensures Unmap(MapGlyph(c, font)[0], font) == Some(c)
  {
  }

  /** Reading back a substituted character gives the character. */
  lemma UnmapMapGlyph(c: AsciiChar, font: FontType)
    requires MapGlyph(c, font) != []
    ensures Unmap(MapGlyph(c, font)[0], font) == Some(c)
  {
    if IsUpper(c) {
      UnmapUpper(c, font);
    } else if IsLower(c) {
      UnmapLower(c, font);
    } else if IsDigit(c) {
      UnmapDigit(c, font);
    }
  }

  /** A non-empty sequence is its front followed by its last element. */
  lemma InitLast<T>(s: seq<T>)
    requires s != []
    ensures s[..|s| - 1] + [s[|s| - 1]] == s
  {
  }

  /** Under a listed font the last character adds exactly one code
      point. */
  lemma GlyphsSnoc(s: seq<AsciiChar>, font: FontType)
    requires font.Listed() && s != []
    ensures Glyphs(s, font) == Glyphs(s[..|s| - 1], font) + [MapGlyph(s[|s| - 1], font)[0]]
  {
    var m := MapGlyph(s[|s| - 1], font);
    assert |m| == 1;
    assert m == [m[0]];
  }

  /** Under one of the twelve fonts, the k-th glyph of a styled string is
      the glyph of its k-th character. */
  lemma {:induction false} GlyphsAt(s: seq<AsciiChar>, font: FontType, k: nat)
    requires font.Listed() && k < |s|
    ensures |Glyphs(s, font)| == |s|
    ensures Glyphs(s, font)[k] == MapGlyph(s[k], font)[0]
  {
    var init := s[..|s| - 1];
    if k < |s| - 1 {
      GlyphsAt(init, font, k);
      assert init[k] == s[k];
    }
  }

  /** Decoding one more code point appends the character it reads back
      as. */
  lemma DecodeSnoc(cps: seq<int>, cp: int, font: FontType, prefix: seq<AsciiChar>, c: AsciiChar)
    requires Decode(cps, font) == Some(prefix) && Unmap(cp, font) == Some(c)
    ensures Decode(cps + [cp], font) == Some(prefix + [c])
  {
    assert (cps + [cp])[..|cps|] == cps;
  }

  /** Styling a string with a listed font loses nothing: the string can be
      read back from its glyphs. */
  lemma {:induction false} DecodeGlyphs(s: seq<AsciiChar>, font: FontType)
    requires font.Listed()
    ensures Decode(Glyphs(s, font), font) == Some(s)
  {
    if s != [] {
      var init, last := s[..|s| - 1], s[|s| - 1];
      DecodeGlyphs(init, font);
      UnmapMapGlyph(last, font);
      GlyphsSnoc(s, font);
      DecodeSnoc(Glyphs(init, font), MapGlyph(last, font)[0], font, init, last);
      InitLast(s);
    }
  }

  /** Hence two strings with the same glyphs under a listed font are equal. */
  lemma GlyphsInjective(s: seq<AsciiChar>, t: seq<AsciiChar>, font: FontType)
    requires font.Listed() && Glyphs(s, font) == Glyphs(t, font)
    ensures s == t
  {
    DecodeGlyphs(s, font);
    DecodeGlyphs(t, font);
  }

  /** An unlisted font drops every letter and digit and keeps the rest. */
  lemma {:induction false} UnlistedGlyphs(s: seq<AsciiChar>, raw: int)
    ensures Glyphs(s, Unlisted(raw)) == Unstyled(s)
  {
    if s != [] {
      UnlistedGlyphs(s[..|s| - 1], raw);
    }
  }

  /** The worked example: "AB3" in SansSerifBold. */
  lemma SansSerifBoldExample()
    ensures Glyphs("AB3", SansSerifBold)
         == ['A' as int + 0x1D5D4 - 'A' as int, 'B' as int + 0x1D5D4 - 'A' as int, '3' as int + 0x1D7EC - '0' as int]
  {
  }
}
