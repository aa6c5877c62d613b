/** Editor positions and parser points, and the editor's map from a character offset in a
    document to a line/character position. */
module Positions {

  /** A zero-based line/character position, as the editor reports it. */
  datatype Position = Position(line: nat, character: nat)

  /** A zero-based row/column point, as the incremental parser expects it. */
  datatype Point = Point(row: nat, column: nat)

  /** `positionToPoint`: the line becomes the row and the character the column. */
  function PositionToPoint(pos: Position): (p: Point)
    ensures p.row == pos.line && p.column == pos.character
  {
    Point(pos.line, pos.character)
  }

  function PointToPosition(p: Point): (pos: Position)
    ensures pos.line == p.row && pos.character == p.column
  {
    Position(p.row, p.column)
  }

  /** The conversion loses nothing: it is a bijection between positions and points. */
  lemma PositionPointRoundTrip(pos: Position, p: Point)
    ensures PointToPosition(PositionToPoint(pos)) == pos
    ensures PositionToPoint(PointToPosition(p)) == p
    ensures PositionToPoint(pos) == p <==> pos == PointToPosition(p)
  {
  }

  /** Reading one character: a line feed starts the next line, anything else moves one
      character to the right. */
  function Step(pos: Position, c: char): Position
  {
    if c == '\n' then Position(pos.line + 1, 0) else Position(pos.line, pos.character + 1)
  }

  /** The position reached from `pos` by reading `s`. */
  function Advance(pos: Position, s: string): Position
    decreases |s|
  {
    if |s| == 0 then pos else Advance(Step(pos, s[0]), s[1..])
  }

  /** The editor's `positionAt`: the position of `offset` in `text`; an offset past the end
      of the text is clamped to the end. */
  function PositionAt(text: string, offset: nat): Position
  {
    Advance(Position(0, 0), text[..if offset <= |text| then offset else |text|])
  }

  /** Reading a concatenation is reading its parts one after the other. */
  lemma {:induction false} AdvanceAppend(pos: Position, a: string, b: string)
    ensures Advance(pos, a + b) == Advance(Advance(pos, a), b)
    decreases |a|
  {
    if |a| == 0 {
      assert a + b == b;
    } else {
      assert (a + b)[1..] == a[1..] + b;
      AdvanceAppend(Step(pos, a[0]), a[1..], b);
    }
  }

  /** The position of an offset depends only on the text before it. */
  lemma PositionAtPrefix(text: string, offset: nat, more: string)
    requires offset <= |text|
    ensures PositionAt(text + more, offset) == PositionAt(text, offset)
  {
    assert (text + more)[..offset] == text[..offset];
  }

  function NewlineCount(s: string): nat
    decreases |s|
  {
    if |s| == 0 then 0
    else NewlineCount(s[..|s| - 1]) + (if s[|s| - 1] == '\n' then 1 else 0)
  }

  /** The index of the last line feed of a text that has one. */
  function LastNewline(s: string): (i: nat)
    requires NewlineCount(s) > 0
    ensures i < |s| && s[i] == '\n'
    ensures forall j :: i < j < |s| ==> s[j] != '\n'
    decreases |s|
  {
    if s[|s| - 1] == '\n' then |s| - 1 else LastNewline(s[..|s| - 1])
  }

  /** Where an insertion of `s` at `pos` ends, computed by scanning `s` for line feeds:
      without one, the same line, `|s|` characters further; otherwise as many lines further
      as `s` has line feeds, at the number of characters after the last of them. */
  function ScanEnd(pos: Position, s: string): Position
  {
    if NewlineCount(s) == 0 then Position(pos.line, pos.character + |s|)
    else Position(pos.line + NewlineCount(s), |s| - 1 - LastNewline(s))
  }

  /** Reading character by character and scanning for line feeds agree. */
  lemma {:induction false} AdvanceIsScanEnd(pos: Position, s: string)
    ensures Advance(pos, s) == ScanEnd(pos, s)
    decreases |s|
  {
    if |s| == 0 {
    } else {
      var init, last := s[..|s| - 1], s[|s| - 1];
      assert s == init + [last];
      AdvanceAppend(pos, init, [last]);
      AdvanceIsScanEnd(pos, init);
      assert Advance(Advance(pos, init), [last]) == Step(Advance(pos, init), last);
    }
  }

  /** An offset inside a replacement: its position is the start of the replacement advanced
      over the inserted characters before it. */
  lemma PositionAfterInsertion(before: string, inserted: string, after: string)
    ensures PositionAt(before + inserted + after, |before| + |inserted|)
         == ScanEnd(PositionAt(before, |before|), inserted)
  {
    var text := before + inserted + after;
    assert text[..|before| + |inserted|] == before + inserted;
    assert before[..|before|] == before;
    AdvanceAppend(Position(0, 0), before, inserted);
    AdvanceIsScanEnd(PositionAt(before, |before|), inserted);
  }
}
