/** A `FileTree`: one parser and one syntax tree for one open document, kept up to date by
    turning every text change the editor reports into an edit record for the tree and then
    reparsing incrementally. Parsing and tree editing belong to the tree-sitter library and
    stay abstract: a tree is the term recording the calls that produced it. */
module FileTrees {
  import opened Wrappers
  import opened Positions
  import opened Host

  /** A contiguous range of the document, as the editor reports it. */
  datatype Range = Range(start: Position, end: Position)

  /** One entry of a change event's `contentChanges`: the range that was replaced, its
      offset and length in characters, and the text that replaced it. */
  datatype Change = Change(range: Range, rangeOffset: nat, rangeLength: nat, text: string)

  /** The document as it is after the change event. */
  datatype Document = Document(languageId: string, text: string)

  datatype ChangeEvent = ChangeEvent(document: Document, contentChanges: seq<Change>)

  /** The edit record the parser's `tree.edit` takes. */
  datatype Edit = Edit(
    startIndex: nat, oldEndIndex: nat, newEndIndex: nat,
    startPosition: Point, oldEndPosition: Point, newEndPosition: Point)

  /** A syntax tree, known only by how it was made: a parse of a text (reusing an old tree
      or not), or an earlier tree with one more edit recorded on it. */
  datatype Tree =
    | Parse(language: Language, text: string, oldTree: Option<Tree>)
    | Edited(base: Tree, edit: Edit)

  datatype Parser = Parser(language: Language)

  datatype FileTree = FileTree(parser: Parser, tree: Tree)

  /** The parser's requirement on an edit: neither end lies before the start. */
  predicate WellFormed(e: Edit)
  {
    e.startIndex <= e.oldEndIndex && e.startIndex <= e.newEndIndex
  }

  /** The edits recorded on a tree since it was last parsed, oldest first. */
  function PendingEdits(t: Tree): seq<Edit>
  {
    match t
    case Parse(_, _, _) => []
    case Edited(base, e) => PendingEdits(base) + [e]
  }

  /** The parse a tree's pending edits were recorded on. */
  function LastParse(t: Tree): Tree
  {
    match t
    case Parse(_, _, _) => t
    case Edited(base, _) => LastParse(base)
  }

  /** How many parses went into a tree, counting those reused as old trees. */
  function Parses(t: Tree): nat
  {
    match t
    case Parse(_, _, reused) => 1 + (if reused.Some? then Parses(reused.value) else 0)
    case Edited(base, _) => Parses(base)
  }

  /** `tree.edit(e)` for each edit of `es`, in order. */
  function ApplyEdits(t: Tree, es: seq<Edit>): Tree
    decreases |es|
  {
    if |es| == 0 then t else Edited(ApplyEdits(t, es[..|es| - 1]), es[|es| - 1])
  }

  /** Editing appends to the pending edits, in order, and never reparses. */
  lemma {:induction false} ApplyEditsRecords(t: Tree, es: seq<Edit>)
    ensures PendingEdits(ApplyEdits(t, es)) == PendingEdits(t) + es
    ensures LastParse(ApplyEdits(t, es)) == LastParse(t)
    ensures Parses(ApplyEdits(t, es)) == Parses(t)
    decreases |es|
  {
    if |es| == 0 {
      assert PendingEdits(t) + es == PendingEdits(t);
    } else {
      var init := es[..|es| - 1];
      ApplyEditsRecords(t, init);
      assert init + [es[|es| - 1]] == es;
    }
  }

  /** `FileTree.openFile`: a new parser set to the language, and one full parse of the text
      with no old tree. */
  function OpenFile(language: Language, text: string): (ft: FileTree)
    ensures ft.parser.language == language
    ensures ft.tree.Parse? && ft.tree.text == text && ft.tree.language == language
    ensures ft.tree.oldTree.None? && Parses(ft.tree) == 1
    ensures PendingEdits(ft.tree) == []
  {
    FileTree(Parser(language), Parse(language, text, None))
  }

  /** The edit record for one change: the old span starts at the change's offset and is as
      long as the replaced range, the new span starts there and is as long as the new text;
      the start and old end points are the change range's ends, and the new end point is
      where the document (after the event) puts the new end offset. */
  function EditFor(c: Change, doc: Document): (e: Edit)
    ensures WellFormed(e)
    ensures e.startIndex == c.rangeOffset
    ensures e.oldEndIndex - e.startIndex == c.rangeLength
    ensures e.newEndIndex - e.startIndex == |c.text|
    ensures e.startPosition == PositionToPoint(c.range.start)
    ensures e.oldEndPosition == PositionToPoint(c.range.end)
    ensures e.newEndPosition == PositionToPoint(PositionAt(doc.text, e.newEndIndex))
  {
    var newEndIndex := c.rangeOffset + |c.text|;
    Edit(c.rangeOffset, c.rangeOffset + c.rangeLength, newEndIndex,
         PositionToPoint(c.range.start), PositionToPoint(c.range.end),
         PositionToPoint(PositionAt(doc.text, newEndIndex)))
  }

  /** The text of a document after one change: the replaced range gives way to the new text. */
  function ApplyChange(text: string, c: Change): string
    requires c.rangeOffset + c.rangeLength <= |text|
  {
    text[..c.rangeOffset] + c.text + text[c.rangeOffset + c.rangeLength..]
  }

  /** For a change that is the whole event, the new end point taken from the edited document
      is the one found by scanning the new text for line feeds from the change's start. */
  lemma NewEndPointOfSingleChange(oldText: string, c: Change, languageId: string)
    requires c.rangeOffset + c.rangeLength <= |oldText|
    requires c.range.start == PositionAt(oldText, c.rangeOffset)
    ensures EditFor(c, Document(languageId, ApplyChange(oldText, c))).newEndPosition
         == PositionToPoint(ScanEnd(c.range.start, c.text))
  {
    var before := oldText[..c.rangeOffset];
    PositionAfterInsertion(before, c.text, oldText[c.rangeOffset + c.rangeLength..]);
    PositionAtPrefix(before, |before|, oldText[c.rangeOffset..]);
    assert before + oldText[c.rangeOffset..] == oldText;
  }

  /** `FileTree.update`: one edit per change, in the order of `contentChanges`, recorded on
      the current tree; then exactly one parse of the document's full text, reusing the
      edited tree. Also returns the edits, in the order they were recorded. */
  method Update(ft: FileTree, event: ChangeEvent) returns (updated: FileTree, edits: seq<Edit>)
    ensures |edits| == |event.contentChanges|
    ensures forall i :: 0 <= i < |edits| ==>
              edits[i] == EditFor(event.contentChanges[i], event.document)
    ensures updated.parser == ft.parser
    ensures updated.tree.Parse? && updated.tree.language == ft.parser.language
    ensures updated.tree.text == event.document.text
    ensures updated.tree.oldTree.Some?
    ensures PendingEdits(updated.tree.oldTree.value) == PendingEdits(ft.tree) + edits
    ensures LastParse(updated.tree.oldTree.value) == LastParse(ft.tree)
    ensures Parses(updated.tree) == Parses(ft.tree) + 1
  {
    var changes := event.contentChanges;
    var tree := ft.tree;
    edits := [];
    for i := 0 to |changes|
      invariant |edits| == i
      invariant forall j :: 0 <= j < i ==> edits[j] == EditFor(changes[j], event.document)
      invariant tree == ApplyEdits(ft.tree, edits)
    {
      var e := EditFor(changes[i], event.document);
      tree := Edited(tree, e);
      edits := edits + [e];
      assert edits[..|edits| - 1] == edits[..i];
    }
    ApplyEditsRecords(ft.tree, edits);
    updated := FileTree(ft.parser, Parse(ft.parser.language, event.document.text, Some(tree)));
  }

  /** A document opened and then changed once, as the view does on activation and on the
      first change event: two parses in all, the second reusing the opening parse with
      exactly the event's edits pending. */
  method OpenThenUpdate(language: Language, text: string, event: ChangeEvent) returns (ft: FileTree)
    ensures ft.parser.language == language
    ensures ft.tree.Parse? && ft.tree.text == event.document.text && Parses(ft.tree) == 2
    ensures ft.tree.oldTree.Some? && LastParse(ft.tree.oldTree.value) == Parse(language, text, None)
    ensures |PendingEdits(ft.tree.oldTree.value)| == |event.contentChanges|
    ensures forall i :: 0 <= i < |event.contentChanges| ==>
              PendingEdits(ft.tree.oldTree.value)[i] == EditFor(event.contentChanges[i], event.document)
  {
    var initial := OpenFile(language, text);
    var edits;
    ft, edits := Update(initial, event);
  }
}
