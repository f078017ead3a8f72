# WConsole styled text and header alignment, in Dafny

A model of two pieces of the WConsole terminal library:

- **The styled-text printer `Text`** (`src/wconsole/text.h`). A styled print
  replaces every character with a Unicode code point chosen by the font.
  FullWidth shifts printable ASCII into the Halfwidth and Fullwidth Forms.
  The other fonts move letters and digits into the Mathematical Alphanumeric
  Symbols block. Before the text, a print emits the pending cursor moves:
  up by `v_pos_`, then right by `h_pos_`. The plain path and the styled path
  then update `v_pos_`, `h_pos_` and `h_global_pos_` differently.
- **Header value alignment** (`wconsole/iheader.h`). `WriteDataToBuff`
  appends a formatted value to a buffer, padded with blanks to a column
  width. The blanks go after the value (Left), before it (Right), or on both
  sides with the odd blank after (Center).

Files:

- `glyphs.dfy`, module `GlyphMap`. It holds `MapGlyph`, the per-character
  substitution, with one function per `switch` (`UpperGlyph`, `LowerGlyph`,
  `DigitGlyph`), and `Glyphs`, the substitution of a whole string. It also
  holds the inverse `Unmap`/`Decode` and the per-font offset tables that
  the rule lemmas are stated with.
- `text.dfy`, module `TextPrinter`. It holds the class `Text`, with the three
  cursor fields and the stream of items sent to the terminal (`output`), and
  its three print methods.
- `header.dfy`, module `Header`. It holds the class `IHeader` with
  `data_pos_` and `is_data_header_`, the method `WriteDataToBuff` on a
  `seq<char>` buffer, and the specification function `Padded`.

Model assumptions:

- A `FontType` value that no `case` names is modelled as `Unlisted(raw)`.
  With only the twelve named fonts, the `default: break;` branches can never
  be reached: every letter and digit lies in 0x21..0x7E, so FullWidth always
  catches it.
- Input characters of a styled print are restricted to 0..127
  (`AsciiChar`). Output code points are `int`.
- The terminal primitives `Print`, `ChangeColor` and `ChangePosition`,
  `WritePositionToBuff` and `Font::WriteParametersToBuff` are not part of
  this model. Their effect is recorded as the items `Up(n)`, `Right(n)`,
  `Color`, `FontParams(font)`, `CodePoint(cp)` (a wide character of the
  styled buffer) and `Byte(b)` (a byte of a C string written as it is)
  appended to `output`.
- `WriteSpacesToBuff(buff, n)` (in `iprint.h`, not part of this model) is
  assumed to append exactly `n` blanks (`Spaces(n)`).
- The cursor fields are declared in `iwconsole.h`, which is not part of this
  model. They are `int` here, and a new `Text` starts with all three at 0.

Three behaviours of the code that one might not expect, which the model
keeps:

- A letter or digit under an unlisted font is dropped, not passed through
  (`src/wconsole/text.h:87`, `:102`, `:117`).
- The styled path does not advance `h_global_pos_` by the text length. The
  line that would do so is commented out (`src/wconsole/text.h:128`).
- The plain path never clears `v_pos_`, so a pending upward move is repeated
  by every plain print. The styled path clears both `v_pos_` and `h_pos_`
  unconditionally (`TextPrinter.PendingResetScenario`).

## Model

| member | source | states |
|---|---|---|
| `GlyphMap.MapGlyph` | src/wconsole/text.h:71-122 | one input character yields at most one code point, and it yields none exactly when an unlisted font meets a letter or a digit |
| `GlyphMap.UpperGlyph` | src/wconsole/text.h:74-88 | the upper-case `switch` has a `case` for exactly the eleven fonts other than FullWidth; any other value reaches `default: break` and adds nothing |
| `GlyphMap.LowerGlyph` | src/wconsole/text.h:89-103 | the lower-case `switch` has a `case` for exactly the same eleven fonts |
| `GlyphMap.DigitGlyph` | src/wconsole/text.h:104-118 | the digit `switch` has a `case` for exactly the same eleven fonts |
| `GlyphMap.Glyphs` | src/wconsole/text.h:71-122 | the styled loop's glyphs are never more than the input characters, and exactly as many for each of the twelve fonts |
| `GlyphMap.FullWidthRule` | src/wconsole/text.h:72-73 | under FullWidth every character in 0x21..0x7E, letters and digits included, becomes `c + 0xFF01 - 0x21`, inside U+FF01..U+FF5E |
| `GlyphMap.PassThroughRule` | src/wconsole/text.h:119-120 | a character that is not a letter or digit, and not caught by the FullWidth rule, is copied unchanged under every font |
| `GlyphMap.UpperLetterRule` | src/wconsole/text.h:74-88 | under each non-FullWidth font an upper-case letter becomes `c - 'A'` plus that font's base in the table `UpperBase` |
| `GlyphMap.LowerLetterRule` | src/wconsole/text.h:89-103 | under each non-FullWidth font a lower-case letter, other than italic 'h', becomes `c - 'a'` plus that font's base in `LowerBase` |
| `GlyphMap.SerifItalH` | src/wconsole/text.h:92 | italic 'h' is the fixed code point 0x1D489, not the regular offset; it equals the bold italic 'h' |
| `GlyphMap.DigitRule` | src/wconsole/text.h:104-118 | a digit becomes `c - '0'` plus the font's digit base; it is unchanged exactly for the fonts other than SerifBold, SansSerif, SansSerifBold and Monospace |
| `GlyphMap.SerifIsIdentity` | src/wconsole/text.h:71-122 | Serif leaves every character unchanged |
| `GlyphMap.LettersLeaveAscii` | src/wconsole/text.h:72-103 | every font but Serif moves letters out of ASCII: into U+1D400..U+1D7FF, or U+FF01..U+FF5E for FullWidth |
| `GlyphMap.GlyphsAt` | src/wconsole/text.h:71-122 | under each of the twelve fonts the styled loop yields one code point per character, and the k-th is the glyph of the k-th character |
| `GlyphMap.UnmapMapGlyph` | src/wconsole/text.h:71-122 | every code point the substitution produces can be read back as the character it came from |
| `GlyphMap.DecodeGlyphs` | src/wconsole/text.h:71-122 | under each of the twelve fonts, decoding the glyphs of a string gives back the string |
| `GlyphMap.GlyphsInjective` | src/wconsole/text.h:71-122 | two strings with the same glyphs under one of the twelve fonts are equal |
| `GlyphMap.UnlistedGlyphs` | src/wconsole/text.h:74-121 | an unlisted font drops every letter and digit and keeps every other character, in order |
| `GlyphMap.SansSerifBoldExample` | src/wconsole/text.h:82 | "AB3" in SansSerifBold gives `'A' + 0x1D5D4 - 'A'`, `'B' + 0x1D5D4 - 'A'`, `'3' + 0x1D7EC - '0'` |
| `TextPrinter.MovesOrder` | src/wconsole/text.h:57-64 | an Up move is emitted iff `v_pos_ > 0` and a Right move iff `h_pos_ > 0`; nothing else is emitted, and Up comes before Right |
| `TextPrinter.AppendGlyphs` | src/wconsole/text.h:71-122 | the loop over the string appends to the buffer exactly the glyphs of the string, in order |
| `TextPrinter.StyledBufferLayout` | src/wconsole/text.h:55-124 | in the stream after a styled print under one of the twelve fonts, the moves are followed by the font token and then by exactly one glyph per input character, the k-th glyph being that of the k-th character |
| `TextPrinter.Text.constructor` | src/wconsole/text.h:30-32 | a new printer has the given font, default Monospace, no pending moves and column 0 |
| `TextPrinter.Text.PrintCString` | src/wconsole/text.h:34-48 | the moves come first, then the colour, then the string's bytes written as they are; `h_pos_` becomes 0 and `v_pos_` is kept; the column becomes the old `h_pos_` if positive, else the old column, plus the length |
| `TextPrinter.Text.PrintText` | src/wconsole/text.h:50-52 | a styled print in the printer's own font |
| `TextPrinter.Text.PrintTextWithFont` | src/wconsole/text.h:54-129 | appends one buffer: the moves, then the font token, then the glyphs of the string (laid out as `StyledBufferLayout` states); both pending moves become 0; the column becomes the old `h_pos_` if positive, else is unchanged, and is never advanced by the text |
| `TextPrinter.PlainPrintScenario` | src/wconsole/text.h:34-48 | plain prints with pending right moves 3, 0, 5 emit moves on the first and third only, and end at column 5 plus the third text's length |
| `TextPrinter.PendingResetScenario` | src/wconsole/text.h:34-129 | a pending up move is repeated by a plain print but consumed by a styled one, and a styled print leaves the column unchanged |
| `Header.PaddedLength` | wconsole/iheader.h:73-96 | the padded column is as long as the larger of the width and the text |
| `Header.PaddedFull` | wconsole/iheader.h:76-96 | when the text is at least as long as the width, it is written unchanged whatever the position |
| `Header.PaddedBalanced` | wconsole/iheader.h:76-96 | the column is blanks, value, blanks, summing to the slack: none before for Left, none after for Right, and for Center the after count equals the before count or one more |
| `Header.PaddedContents` | wconsole/iheader.h:73-96 | the column holds the value's characters exactly once, and blanks besides |
| `Header.CenterExamples` | wconsole/iheader.h:85-87 | "7" centred in 5 is `"  7  "` and "42" centred in 5 is `" 42  "` |
| `Header.IHeader.constructor` | wconsole/iheader.h:49-52 | a new header shows data headers and centres values unless told otherwise |
| `Header.IHeader.SetDataPosition` | wconsole/iheader.h:37-39 | sets `data_pos_` and changes nothing else |
| `Header.IHeader.ShowDataHeader` | wconsole/iheader.h:41-43 | sets `is_data_header_` and changes nothing else |
| `Header.IHeader.WriteDataToBuff` | wconsole/iheader.h:56-97 | the buffer grows by the value padded at the current position; the old contents are a prefix, and the growth is the larger of the width and the length |

## Left out

- Terminal output is not modelled. `Print`, `ChangeColor`, `ChangePosition`,
  `WritePositionToBuff` and `Font::WriteParametersToBuff` are in files that
  are not part of this model. The model records them as items on `output`,
  without escape bytes.
- The `Font` object is modelled by its `FontType` alone. Any other
  parameters it writes are inside the `FontParams` token.
- The value text in `WriteDataToBuff` is taken as an input. Number
  formatting is not modelled: `std::fixed` with `setprecision`,
  `std::to_wstring` and the `typeid` test that chooses between them. So the
  `precision` argument is dropped.
- The buffer of `WriteDataToBuff` is passed and returned by value rather
  than updated through a reference. Aliasing of the buffer is not captured.
- Header.IHeader.WriteDataToBuff: `alignment` is an unbounded `nat`. The
  model ignores the `uint` cast of the text length, which would truncate
  texts of 2^32 characters or more.
- `wchar_t` width and sign extension of bytes 0x80..0xFF in `char` are not
  modelled. Styled input is restricted to 0..127.
- The argument of the plain print is a `seq<CByte>`: the bytes 1..255 of
  the C string before its terminator, so `strlen` is exactly its length.
  An embedded NUL cannot occur, and a multi-byte character is its separate
  bytes. What the terminal makes of those bytes is not modelled.
