/** The data-header part of a table (wconsole/iheader.h): where a value's
    text sits inside its column, and the two settings that control it. */
module Header {

  /** Where a value sits in its column. */
  datatype DataPosition = Right | Left | Center

  /** `n` blanks: what `WriteSpacesToBuff(buff, n)` appends. */
  function Spaces(n: nat): (r: seq<char>)
    ensures |r| == n
    ensures forall i :: 0 <= i < n ==> r[i] == ' '
  {
    seq(n, _ => ' ')
  }

  /** Blanks split anywhere are still blanks. */
  lemma SpacesSplit(n: nat, k: nat)
    requires k <= n
    ensures Spaces(n) == Spaces(k) + Spaces(n - k)
  {
  }

  function Max(a: int, b: int): int { if a < b then b else a }

  /** The slack of a column: how many blanks it adds around `len`
      characters in a column `width` wide, none when the text fills it. */
  function Slack(len: nat, width: nat): nat {
    if width > len then width - len else 0
  }

  /** The padded column text, written by slack: after the value for Left,
      before it for Right, split in two for Center with the odd blank after. */
  function Padded(value: seq<char>, width: nat, pos: DataPosition): seq<char> {
    var slack := Slack(|value|, width);
    match pos
    case Left   => value + Spaces(slack)
    case Right  => Spaces(slack) + value
    case Center => Spaces(slack / 2) + value + Spaces(slack - slack / 2)
  }

  /** The blanks before and after a value that a position allows: together
      they make up the slack; none before for Left, none after for Right,
      and for Center as many after as before, or one more. */
  predicate Balanced(pos: DataPosition, before: nat, after: nat, slack: nat) {
    before + after == slack &&
    match pos
    case Left   => before == 0
    case Right  => after == 0
    case Center => before <= after <= before + 1
  }

  /** The column is as wide as the larger of the width and the text. */
  lemma PaddedLength(value: seq<char>, width: nat, pos: DataPosition)
    ensures |Padded(value, width, pos)| == Max(width, |value|)
  {
  }

  /** A value that fills its column is written as it is, whatever the
      position. */
  lemma PaddedFull(value: seq<char>, width: nat, pos: DataPosition)
    requires width <= |value|
    ensures Padded(value, width, pos) == value
  {
  }

  /** The column text is the value surrounded by blanks laid out as the
      position demands; that layout is the only one, so the odd blank of a
      centred value goes after it. */
  lemma PaddedBalanced(value: seq<char>, width: nat, pos: DataPosition, before: nat, after: nat)
    requires Balanced(pos, before, after, Slack(|value|, width))
    ensures Padded(value, width, pos) == Spaces(before) + value + Spaces(after)
  {
  }

  /** The column holds the value's characters once and blanks besides. */
  lemma PaddedContents(value: seq<char>, width: nat, pos: DataPosition)
    ensures multiset(Padded(value, width, pos))
         == multiset(value) + multiset(Spaces(Slack(|value|, width)))
  {
    var slack := Slack(|value|, width);
    if pos == Center {
      SpacesSplit(slack, slack / 2);
    }
  }

  /** The worked examples: "7" and "42" centred in five columns. */
  lemma CenterExamples()
    ensures Padded("7", 5, Center) == "  7  "
    ensures Padded("42", 5, Center) == " 42  "
  {
  }

  class IHeader {
    var isDataHeader: bool
    var dataPos: DataPosition

    constructor(isDataHeader: bool := true, dataPosition: DataPosition := Center)
      ensures this.isDataHeader == isDataHeader && dataPos == dataPosition
    {
      this.isDataHeader := isDataHeader;
      dataPos := dataPosition;
    }

    method SetDataPosition(pos: DataPosition)
      modifies this`dataPos
      ensures dataPos == pos
    {
      dataPos := pos;
    }

    method ShowDataHeader(show: bool)
      modifies this`isDataHeader
      ensures isDataHeader == show
    {
      isDataHeader := show;
    }

    /** Appends the formatted value `wvalue` to `buff`, padded to
        `alignment` columns at the current position. The buffer only grows:
        what it held is a prefix of the result. */
    method WriteDataToBuff(buff: seq<char>, wvalue: seq<char>, alignment: nat) returns (r: seq<char>)
      ensures r == buff + Padded(wvalue, alignment, dataPos)
      ensures r[..|buff|] == buff
      ensures |r| == |buff| + Max(alignment, |wvalue|)
    {
      r := buff;
      var strLen := |wvalue|;
      var diff: nat := 0;
      ghost var lead: nat := 0;
      if alignment > strLen {
        match dataPos
        case Left =>
          diff := alignment - strLen;
        case Right =>
          diff := 0;
          lead := alignment - strLen;
          r := r + Spaces(alignment - strLen);
        case Center =>
          diff := alignment - strLen - (alignment - strLen) / 2;
          lead := (alignment - strLen) / 2;
          r := r + Spaces((alignment - strLen) / 2);
      }
      assert r == buff + Spaces(lead);
      r := r + wvalue;
      if alignment > strLen {
        r := r + Spaces(diff);
      }
      assert r == buff + (Spaces(lead) + wvalue + Spaces(diff));
      PaddedBalanced(wvalue, alignment, dataPos, lead, diff);
    }
  }
}
