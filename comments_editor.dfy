/**
 * The comment editor (`src/components/CommentsEditor.tsx`): editing a section's title or
 * content by id, the colour cycle of the sections, and the undo bar.
 */
module CommentsEditor {
  import opened Wrappers
  import opened Report
  import App

  /** `handleTitleChange`: every section with `id` gets the new title. */
  function TitleChange(cs: seq<CommentSection>, id: string, newTitle: string): (r: seq<CommentSection>)
    ensures |r| == |cs|
    ensures forall k :: 0 <= k < |cs| ==> r[k].id == cs[k].id && r[k].content == cs[k].content
    ensures forall k :: 0 <= k < |cs| && cs[k].id == id ==> r[k].title == newTitle
    ensures forall k :: 0 <= k < |cs| && cs[k].id != id ==> r[k] == cs[k]
  {
    seq(|cs|, k requires 0 <= k < |cs| => if cs[k].id == id then cs[k].(title := newTitle) else cs[k])
  }

  /** `handleContentChange`: every section with `id` gets the new content. */
  function ContentChange(cs: seq<CommentSection>, id: string, newContent: string): (r: seq<CommentSection>)
    ensures |r| == |cs|
    ensures forall k :: 0 <= k < |cs| ==> r[k].id == cs[k].id && r[k].title == cs[k].title
    ensures forall k :: 0 <= k < |cs| && cs[k].id == id ==> r[k].content == newContent
    ensures forall k :: 0 <= k < |cs| && cs[k].id != id ==> r[k] == cs[k]
  {
    seq(|cs|, k requires 0 <= k < |cs| => if cs[k].id == id then cs[k].(content := newContent) else cs[k])
  }

  /** An id that names no section leaves both edits without effect. */
  lemma EditUnknownId(cs: seq<CommentSection>, id: string, text: string)
    requires forall k :: 0 <= k < |cs| ==> cs[k].id != id
    ensures TitleChange(cs, id, text) == cs
    ensures ContentChange(cs, id, text) == cs
  {
  }

  /** Only the latest title typed into a section counts. */
  lemma TitleChangeLastWins(cs: seq<CommentSection>, id: string, a: string, b: string)
    ensures TitleChange(TitleChange(cs, id, a), id, b) == TitleChange(cs, id, b)
  {
  }

  /** Editing a title and editing a content can happen in either order. */
  lemma EditsCommute(cs: seq<CommentSection>, id1: string, title: string, id2: string, content: string)
    ensures ContentChange(TitleChange(cs, id1, title), id2, content)
      == TitleChange(ContentChange(cs, id2, content), id1, title)
  {
  }

  /** Edits keep the ids, so a list without duplicate ids keeps none. */
  lemma EditsKeepIdsUnique(cs: seq<CommentSection>, id: string, text: string)
    requires App.UniqueIds(cs)
    ensures App.UniqueIds(TitleChange(cs, id, text))
    ensures App.UniqueIds(ContentChange(cs, id, text))
  {
  }

  const SectionColors: seq<string> := ["note-blue", "note-orange", "note-green", "note-purple"]

  /** The colour class of the section at `index`. */
  function SectionColor(index: nat): (color: string)
    ensures color in SectionColors
  {
    SectionColors[index % |SectionColors|]
  }

  /** The colours repeat every four sections, and neighbouring sections never share one. */
  lemma SectionColorCycle(index: nat)
    ensures SectionColor(index + 4) == SectionColor(index)
    ensures SectionColor(index) != SectionColor(index + 1)
  {
    var k := index % 4;
    assert (index + 1) % 4 == (k + 1) % 4;
  }

  /** The undo bar: shown only with deleted sections, naming the last one deleted. */
  function UndoBar(deleted: seq<CommentSection>): (shown: Option<string>)
    ensures shown.Some? <==> |deleted| > 0
    ensures shown.Some? ==> shown.value == deleted[|deleted| - 1].title
  {
    if |deleted| > 0 then Some(deleted[|deleted| - 1].title) else None
  }

  /** After a delete the undo bar names the section just deleted. */
  lemma UndoBarAfterDelete(p: ReportData, id: string)
    requires App.FindComment(p.comments, id).Some?
    ensures UndoBar(App.DeleteComment(Some(p), id).value.deletedComments)
      == Some(App.FindComment(p.comments, id).value.title)
  {
  }

  /** Undoing the only deletion hides the undo bar. */
  lemma UndoBarAfterLastUndo(p: ReportData)
    requires |p.deletedComments| == 1
    ensures UndoBar(App.UndoDelete(Some(p)).value.deletedComments) == None
  {
  }
}
