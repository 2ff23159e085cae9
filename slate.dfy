/** The rich-text helpers of utils/slate.ts over a selection inside one
    block. The editor state that matters here is whether there is a
    selection, the marks at the selection, the type of the selected block
    and the list container around it, if any. */
module Slate {
  import opened Base

  /** `BlockType`: paragraph, the two list containers, list item. */
  datatype BlockType = Paragraph | NumberedList | BulletedList | ListItem

  /** `LIST_TYPES.includes(format)` */
  predicate IsList(format: BlockType) {
    format == NumberedList || format == BulletedList
  }

  /** The marks at the selection; `None` when `Editor.marks` is null. */
  type Marks = Option<map<string, bool>>

  /** `isMarkActive`: `marks ? marks[format] === true : false`. */
  predicate MarkActive(marks: Marks, format: string)
    ensures marks.None? ==> !MarkActive(marks, format)
    ensures marks.Some? && format !in marks.value ==> !MarkActive(marks, format)
    ensures marks.Some? && format in marks.value && !marks.value[format] ==> !MarkActive(marks, format)
  {
    marks.Some? && format in marks.value && marks.value[format]
  }

  /** The marks after `toggleMark`: `removeMark` when active, else
      `addMark(format, true)`; without a selection both do nothing. */
  function MarksAfterToggle(marks: Marks, format: string): (r: Marks)
    ensures r.Some? <==> marks.Some?
    ensures marks.Some? ==> MarkActive(r, format) == !MarkActive(marks, format)
    ensures marks.Some? ==> forall other :: other != format ==>
              (other in r.value <==> other in marks.value) && (other in r.value ==> r.value[other] == marks.value[other])
  {
    match marks
    case None => None
    case Some(m) => if MarkActive(marks, format) then Some(m - {format}) else Some(m[format := true])
  }

  /** Toggling an active mark twice restores the marks exactly. */
  lemma ToggleMarkTwiceFromActive(marks: Marks, format: string)
    requires MarkActive(marks, format)
    ensures MarksAfterToggle(MarksAfterToggle(marks, format), format) == marks
  {
    var m := marks.value;
    assert (m - {format})[format := true] == m;
  }

  /** The selected block and the list container around it. */
  datatype Selection = Selection(block: BlockType, wrapper: Option<BlockType>)

  /** The shapes the helpers build: a container, when present, is a list
      and holds a list item. */
  predicate WellFormed(s: Selection) {
    s.wrapper.Some? ==> IsList(s.wrapper.value) && s.block == ListItem
  }

  /** `isBlockActive`: some element at the selection, the block or its
      container, has type `format`. */
  predicate BlockActive(s: Selection, format: BlockType)
    ensures WellFormed(s) && !IsList(format) ==> (BlockActive(s, format) <==> s.block == format)
    ensures WellFormed(s) && s.wrapper.Some? && IsList(format) ==>
              (BlockActive(s, format) <==> s.wrapper.value == format)
  {
    s.block == format || s.wrapper == Some(format)
  }

  /** Step 2 of `toggleBlock`: the type the block takes. */
  function NewType(active: bool, format: BlockType): (t: BlockType)
    ensures t == Paragraph <==> active || format == Paragraph
    ensures t == ListItem <==> !active && (IsList(format) || format == ListItem)
  {
    if active then Paragraph else if IsList(format) then ListItem else format
  }

  /** `toggleBlock`: unwrap any list container, retype the block, and wrap it
      in a container of type `format` when a list is being turned on. */
  function AfterToggleBlock(s: Selection, format: BlockType): (r: Selection)
    ensures r.block == NewType(BlockActive(s, format), format)
    ensures r.wrapper.Some? <==> !BlockActive(s, format) && IsList(format)
    ensures r.wrapper.Some? ==> r.wrapper.value == format
  {
    var active := BlockActive(s, format);
    Selection(NewType(active, format), if !active && IsList(format) then Some(format) else None)
  }

  /** Toggling keeps the shapes well formed, whatever the start. */
  lemma ToggleBlockWellFormed(s: Selection, format: BlockType)
    ensures WellFormed(AfterToggleBlock(s, format))
  {
  }

  /** Toggling a format that is off turns it on; toggling one that is on
      turns it off, except `paragraph`, which it re-applies. */
  lemma ToggleBlockFlips(s: Selection, format: BlockType)
    ensures !BlockActive(s, format) ==> BlockActive(AfterToggleBlock(s, format), format)
    ensures BlockActive(s, format) ==> (BlockActive(AfterToggleBlock(s, format), format) <==> format == Paragraph)
  {
  }

  /** From a plain paragraph, toggling any format twice gives the plain
      paragraph back. */
  lemma ToggleBlockTwiceFromParagraph(format: BlockType)
    ensures AfterToggleBlock(AfterToggleBlock(Selection(Paragraph, None), format), format) == Selection(Paragraph, None)
  {
  }

  /** Toggling the other list type on a list item switches the container in
      one step. */
  lemma ToggleSwitchesLists(s: Selection, format: BlockType)
    requires s.block == ListItem && s.wrapper.Some? && IsList(s.wrapper.value)
    requires IsList(format) && format != s.wrapper.value
    ensures AfterToggleBlock(s, format) == Selection(ListItem, Some(format))
  {
  }

  /** The editor, as far as the helpers read and change it. */
  class Editor {
    var hasSelection: bool
    var marks: Marks
    var selection: Selection

    constructor (hasSelection: bool, marks: Marks, selection: Selection)
      ensures this.hasSelection == hasSelection && this.marks == marks && this.selection == selection
    {
      this.hasSelection := hasSelection;
      this.marks := marks;
      this.selection := selection;
    }

    /** `toggleMark(editor, format)` */
    method ToggleMark(format: string)
      modifies this
      ensures marks == MarksAfterToggle(old(marks), format)
      ensures hasSelection == old(hasSelection) && selection == old(selection)
    {
      if MarkActive(marks, format) {
        marks := Some(marks.value - {format});
      } else if marks.Some? {
        marks := Some(marks.value[format := true]);
      }
    }

    /** `toggleBlock(editor, format)`: the three transforms in order; each
        of them does nothing without a selection. */
    method ToggleBlock(format: BlockType)
      modifies this
      ensures selection == if old(hasSelection) then AfterToggleBlock(old(selection), format) else old(selection)
      ensures hasSelection == old(hasSelection) && marks == old(marks)
    {
      if !hasSelection {
        return;
      }
      var active := BlockActive(selection, format);
      var isList := IsList(format);
      // 1) unwrap any list container
      selection := selection.(wrapper := None);
      // 2) retype the block
      selection := selection.(block := if active then Paragraph else if isList then ListItem else format);
      // 3) wrap it when a list was turned on
      if !active && isList {
        selection := selection.(wrapper := Some(format));
      }
    }
  }
}
