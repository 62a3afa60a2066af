/**
 * The report editing state of `src/App.tsx`: the comment delete / undo / add stack, the AI
 * regeneration, the confirm and back transitions, and the module-wide `nextCommentId` counter.
 * Every `setReportData(prev => ...)` updater is a pure function of the previous state below;
 * `AppState` holds the state React keeps and applies those updaters to its fields.
 */
module App {
  import opened Wrappers
  import opened Text
  import opened Report

  /** The first number handed out for an added comment section. */
  const FirstCommentId: nat := 200

  const NewSectionTitle := "新規セクション"

  /** `Array.prototype.findIndex` on ids: the first position holding `id`, or -1. */
  function FindIndex(cs: seq<CommentSection>, id: string): (k: int)
    ensures -1 <= k < |cs|
    ensures k == -1 <==> forall j :: 0 <= j < |cs| ==> cs[j].id != id
    ensures k >= 0 ==> cs[k].id == id && forall j :: 0 <= j < k ==> cs[j].id != id
  {
    if |cs| == 0 then -1
    else if cs[0].id == id then 0
    else
      var k := FindIndex(cs[1..], id);
      if k == -1 then -1 else k + 1
  }

  /** `comments.find(c => c.id === id)`. */
  function FindComment(cs: seq<CommentSection>, id: string): Option<CommentSection> {
    var k := FindIndex(cs, id);
    if k < 0 then None else Some(cs[k])
  }

  /** `comments.filter(c => c.id !== id)`. */
  function RemoveId(cs: seq<CommentSection>, id: string): (r: seq<CommentSection>)
    ensures |r| <= |cs|
  {
    if |cs| == 0 then []
    else (if cs[0].id == id then [] else [cs[0]]) + RemoveId(cs[1..], id)
  }

  /** A list without a section of that id passes the filter unchanged. */
  lemma {:induction false} RemoveIdAbsent(cs: seq<CommentSection>, id: string)
    requires forall j :: 0 <= j < |cs| ==> cs[j].id != id
    ensures RemoveId(cs, id) == cs
    decreases |cs|
  {
    if |cs| > 0 {
      assert cs[0].id != id;
      RemoveIdAbsent(cs[1..], id);
      assert [cs[0]] + cs[1..] == cs;
    }
  }

  /** The filter keeps exactly the sections whose id differs. */
  lemma {:induction false} RemoveIdMembers(cs: seq<CommentSection>, id: string)
    ensures forall c :: c in RemoveId(cs, id) <==> c in cs && c.id != id
    decreases |cs|
  {
    if |cs| > 0 {
      RemoveIdMembers(cs[1..], id);
      assert cs == [cs[0]] + cs[1..];
    }
  }

  /** No two comment sections share an id. */
  predicate UniqueIds(cs: seq<CommentSection>) {
    forall i, j :: 0 <= i < j < |cs| ==> cs[i].id != cs[j].id
  }

  /** `handleCommentDelete`: move the first section with `id` onto the deleted stack. */
  function DeleteComment(rd: Option<ReportData>, id: string): (r: Option<ReportData>)
    ensures rd.None? ==> r == rd
    ensures rd.Some? && FindComment(rd.value.comments, id).None? ==> r == rd
    ensures rd.Some? && FindComment(rd.value.comments, id).Some? ==>
      var p := rd.value;
      var k := FindIndex(p.comments, id);
      r == Some(p.(comments := RemoveId(p.comments, id), deletedComments := p.deletedComments + [p.comments[k]]))
      && (forall c :: c in r.value.comments ==> c.id != id)
      && (forall c :: c in p.comments && c.id != id ==> c in r.value.comments)
  {
    match rd
    case None => rd
    case Some(p) =>
      match FindComment(p.comments, id)
      case None => rd
      case Some(deleted) =>
        RemoveIdMembers(p.comments, id);
        Some(p.(comments := RemoveId(p.comments, id), deletedComments := p.deletedComments + [deleted]))
  }

  /** `handleCommentUndo`: pop the last deleted section and append it to the comments. */
  function UndoDelete(rd: Option<ReportData>): (r: Option<ReportData>)
    ensures rd.None? || |rd.value.deletedComments| == 0 ==> r == rd
    ensures rd.Some? && |rd.value.deletedComments| > 0 ==>
      var p := rd.value;
      var n := |p.deletedComments|;
      r.Some? && r.value.comments == p.comments + [p.deletedComments[n - 1]]
      && r.value.deletedComments + [p.deletedComments[n - 1]] == p.deletedComments
      && r.value == p.(comments := r.value.comments, deletedComments := r.value.deletedComments)
    ensures r.Some? ==>
              multiset(r.value.comments + r.value.deletedComments)
              == multiset(rd.value.comments + rd.value.deletedComments)
  {
    match rd
    case None => rd
    case Some(p) =>
      if |p.deletedComments| == 0 then rd
      else
        var n := |p.deletedComments|;
        var restored := p.deletedComments[n - 1];
        var rest := p.deletedComments[..n - 1];
        assert p.deletedComments == rest + [restored];
        assert p.comments + [restored] + rest == p.comments + [restored] + rest;
        Some(p.(comments := p.comments + [restored], deletedComments := rest))
  }

  /** The id of the `n`-th added section, `new-${n}`. */
  function NewId(n: nat): string {
    "new-" + NatToString(n)
  }

  /** The section `handleCommentAdd` appends when the counter stands at `n`. */
  function NewSection(n: nat): CommentSection {
    CommentSection(NewId(n), NewSectionTitle, "")
  }

  /** `handleCommentAdd`'s updater with the counter at `n`. */
  function AddComment(rd: Option<ReportData>, n: nat): (r: Option<ReportData>)
    ensures rd.None? ==> r == rd
    ensures rd.Some? ==> r == Some(rd.value.(comments := rd.value.comments + [NewSection(n)]))
  {
    match rd
    case None => rd
    case Some(p) => Some(p.(comments := p.comments + [NewSection(n)]))
  }

  /** `handleRegenerateAI`'s updater: the generated sections replace the comments, and the deleted stack is emptied. */
  function Regenerate(rd: Option<ReportData>, generated: seq<CommentSection>): (r: Option<ReportData>)
    ensures rd.None? ==> r == rd
    ensures rd.Some? ==> r == Some(rd.value.(comments := generated, deletedComments := []))
  {
    match rd
    case None => rd
    case Some(p) => Some(p.(comments := generated, deletedComments := []))
  }

  /** `handleCommentsChange`'s updater. */
  function ReplaceComments(rd: Option<ReportData>, comments: seq<CommentSection>): (r: Option<ReportData>)
    ensures rd.None? ==> r == rd
    ensures rd.Some? ==> r == Some(rd.value.(comments := comments))
  {
    match rd
    case None => rd
    case Some(p) => Some(p.(comments := comments))
  }

  /** Different counter values give different ids. */
  lemma NewIdsDistinct(a: nat, b: nat)
    requires a != b
    ensures NewId(a) != NewId(b)
  {
    assert NewId(a)[4..] == NatToString(a);
    assert NewId(b)[4..] == NatToString(b);
    NatToStringValue(a);
    NatToStringValue(b);
  }

  /** No section in `cs` carries an id that the counter will still hand out from `n` on. */
  ghost predicate FreshFrom(cs: seq<CommentSection>, n: nat) {
    forall k, m: nat :: 0 <= k < |cs| && m >= n ==> cs[k].id != NewId(m)
  }

  /**
   * Adding keeps the ids unique: when no existing id is one the counter will still produce,
   * the new section's id is new, and afterwards the same holds for the advanced counter.
   */
  lemma AddKeepsIdsUnique(p: ReportData, n: nat)
    requires UniqueIds(p.comments)
    requires FreshFrom(p.comments, n)
    ensures var q := AddComment(Some(p), n).value;
      UniqueIds(q.comments) && FreshFrom(q.comments, n + 1)
  {
    var cs := p.comments + [NewSection(n)];
    forall i, j | 0 <= i < j < |cs|
      ensures cs[i].id != cs[j].id
    {
      if j == |cs| - 1 {
        assert cs[i] == p.comments[i];
      } else {
        assert cs[i] == p.comments[i] && cs[j] == p.comments[j];
      }
    }
    forall k, m: nat | 0 <= k < |cs| && m >= n + 1
      ensures cs[k].id != NewId(m)
    {
      if k == |cs| - 1 {
        NewIdsDistinct(n, m);
      } else {
        assert cs[k] == p.comments[k];
      }
    }
  }

  /** Filtering a concatenation filters each part. */
  lemma {:induction false} RemoveIdConcat(a: seq<CommentSection>, b: seq<CommentSection>, id: string)
    ensures RemoveId(a + b, id) == RemoveId(a, id) + RemoveId(b, id)
    decreases |a|
  {
    if |a| > 0 {
      var head := if a[0].id == id then [] else [a[0]];
      assert (a + b)[0] == a[0] && (a + b)[1..] == a[1..] + b;
      assert RemoveId(a + b, id) == head + RemoveId(a[1..] + b, id);
      RemoveIdConcat(a[1..], b, id);
      assert RemoveId(a, id) == head + RemoveId(a[1..], id);
      assert head + (RemoveId(a[1..], id) + RemoveId(b, id)) == (head + RemoveId(a[1..], id)) + RemoveId(b, id);
    } else {
      assert a + b == b;
    }
  }

  /** A comment list without duplicate ids loses exactly the one section that `id` names. */
  lemma {:induction false} RemoveUnique(cs: seq<CommentSection>, k: nat)
    requires UniqueIds(cs)
    requires k < |cs|
    ensures RemoveId(cs, cs[k].id) == cs[..k] + cs[k + 1..]
    decreases k
  {
    var id := cs[k].id;
    var tail := cs[1..];
    assert RemoveId(cs, id) == (if cs[0].id == id then [] else [cs[0]]) + RemoveId(tail, id);
    if k == 0 {
      forall j | 0 <= j < |tail|
        ensures tail[j].id != id
      {
        assert tail[j] == cs[j + 1];
      }
      RemoveIdAbsent(tail, id);
    } else {
      assert cs[0].id != id;
      assert UniqueIds(tail) by {
        forall i, j | 0 <= i < j < |tail|
          ensures tail[i].id != tail[j].id
        {
          assert tail[i] == cs[i + 1] && tail[j] == cs[j + 1];
        }
      }
      assert tail[k - 1] == cs[k];
      RemoveUnique(tail, k - 1);
      assert cs[..k] == [cs[0]] + tail[..k - 1] && cs[k + 1..] == tail[k..];
    }
  }

  /**
   * With unique ids, deleting a known section and undoing gives back the deleted stack as it was
   * and the same sections, the restored one now last.
   */
  lemma DeleteThenUndo(p: ReportData, id: string)
    requires UniqueIds(p.comments)
    requires FindComment(p.comments, id).Some?
    ensures var k := FindIndex(p.comments, id);
      UndoDelete(DeleteComment(Some(p), id))
        == Some(p.(comments := p.comments[..k] + p.comments[k + 1..] + [p.comments[k]]))
    ensures var q := UndoDelete(DeleteComment(Some(p), id)).value;
      q.deletedComments == p.deletedComments && multiset(q.comments) == multiset(p.comments)
  {
    var k := FindIndex(p.comments, id);
    var cs := p.comments;
    var rest := cs[..k] + cs[k + 1..];
    var d := p.(comments := rest, deletedComments := p.deletedComments + [cs[k]]);
    assert DeleteComment(Some(p), id) == Some(d) by {
      RemoveUnique(cs, k);
    }
    assert UndoDelete(Some(d)) == Some(p.(comments := rest + [cs[k]])) by {
      assert (p.deletedComments + [cs[k]])[..|p.deletedComments|] == p.deletedComments;
    }
    MoveToEndPermutes(cs, k);
  }

  /** Moving one section to the end keeps the multiset of sections. */
  lemma MoveToEndPermutes(cs: seq<CommentSection>, k: nat)
    requires k < |cs|
    ensures multiset(cs[..k] + cs[k + 1..] + [cs[k]]) == multiset(cs)
  {
    assert cs == cs[..k] + [cs[k]] + cs[k + 1..];
  }

  /** Deleting an id and deleting it again is the same as deleting it once. */
  lemma DeleteTwice(rd: Option<ReportData>, id: string)
    ensures DeleteComment(DeleteComment(rd, id), id) == DeleteComment(rd, id)
  {
    if rd.Some? && FindComment(rd.value.comments, id).Some? {
      var q := DeleteComment(rd, id).value;
      assert forall j :: 0 <= j < |q.comments| ==> q.comments[j].id != id by {
        forall j | 0 <= j < |q.comments|
          ensures q.comments[j].id != id
        {
          assert q.comments[j] in q.comments;
        }
      }
      RemoveIdAbsent(q.comments, id);
    }
  }

  /** The state `App` keeps across renders, with the module-wide id counter. */
  class AppState {
    var step: AppStep
    var reportData: Option<ReportData>
    var isEditing: bool
    var nextCommentId: nat

    constructor()
      ensures step == Select && reportData == None && !isEditing
      ensures nextCommentId == FirstCommentId
    {
      step := Select;
      reportData := None;
      isEditing := false;
      nextCommentId := FirstCommentId;
    }

    /**
     * The end of `handleGenerate`: fetched report data opens the preview, and a failure
     * returns to the store selection. Fetching and the AI comments are the caller's.
     */
    method FinishGenerate(fetched: Option<ReportData>)
      modifies this
      ensures fetched.Some? ==> reportData == fetched && step == Preview
      ensures fetched.None? ==> reportData == old(reportData) && step == Select
      ensures isEditing == old(isEditing) && nextCommentId == old(nextCommentId)
    {
      if fetched.Some? {
        reportData := fetched;
        step := Preview;
      } else {
        step := Select;
      }
    }

    /** `handleCommentDelete`. */
    method CommentDelete(id: string)
      modifies this
      ensures reportData == DeleteComment(old(reportData), id)
      ensures step == old(step) && isEditing == old(isEditing) && nextCommentId == old(nextCommentId)
    {
      reportData := DeleteComment(reportData, id);
    }

    /** `handleCommentUndo`. */
    method CommentUndo()
      modifies this
      ensures reportData == UndoDelete(old(reportData))
      ensures step == old(step) && isEditing == old(isEditing) && nextCommentId == old(nextCommentId)
    {
      reportData := UndoDelete(reportData);
    }

    /** `handleCommentAdd`: the counter only advances when there is report data to add to. */
    method CommentAdd()
      modifies this
      ensures reportData == AddComment(old(reportData), old(nextCommentId))
      ensures nextCommentId == if old(reportData).Some? then old(nextCommentId) + 1 else old(nextCommentId)
      ensures step == old(step) && isEditing == old(isEditing)
    {
      if reportData.Some? {
        reportData := AddComment(reportData, nextCommentId);
        nextCommentId := nextCommentId + 1;
      }
    }

    /**
     * `handleRegenerateAI`: without report data or without an API key nothing changes; a failed
     * generation (`None`) changes nothing either.
     */
    method RegenerateAI(hasApiKey: bool, generated: Option<seq<CommentSection>>)
      modifies this
      ensures old(reportData).Some? && hasApiKey && generated.Some? ==>
        reportData == Regenerate(old(reportData), generated.value)
      ensures !(old(reportData).Some? && hasApiKey && generated.Some?) ==> reportData == old(reportData)
      ensures step == old(step) && isEditing == old(isEditing) && nextCommentId == old(nextCommentId)
    {
      if reportData.Some? && hasApiKey && generated.Some? {
        reportData := Regenerate(reportData, generated.value);
      }
    }

    /** `handleCommentsChange`. */
    method CommentsChange(comments: seq<CommentSection>)
      modifies this
      ensures reportData == ReplaceComments(old(reportData), comments)
      ensures step == old(step) && isEditing == old(isEditing) && nextCommentId == old(nextCommentId)
    {
      reportData := ReplaceComments(reportData, comments);
    }

    /** `handleToggleEdit`. */
    method ToggleEdit()
      modifies this
      ensures isEditing == !old(isEditing)
      ensures step == old(step) && reportData == old(reportData) && nextCommentId == old(nextCommentId)
    {
      isEditing := !isEditing;
    }

    /** `handleConfirm`: only with report data does the report become confirmed. */
    method Confirm()
      modifies this
      ensures old(reportData).Some? ==> step == Confirmed && !isEditing
      ensures old(reportData).None? ==> step == old(step) && isEditing == old(isEditing)
      ensures reportData == old(reportData) && nextCommentId == old(nextCommentId)
    {
      if reportData.Some? {
        step := Confirmed;
        isEditing := false;
      }
    }

    /** `handleBack`: back to the store selection, leaving edit mode. */
    method Back()
      modifies this
      ensures step == Select && !isEditing
      ensures reportData == old(reportData) && nextCommentId == old(nextCommentId)
    {
      step := Select;
      isEditing := false;
    }
  }

  /**
   * Two sections added one after the other get different ids, and both end up last in the
   * comments, in order.
   */
  method AddTwice(s: AppState) returns (first: string, second: string)
    requires s.reportData.Some?
    modifies s
    ensures first != second
    ensures s.reportData.Some? && |s.reportData.value.comments| >= 2
    ensures first == s.reportData.value.comments[|s.reportData.value.comments| - 2].id
    ensures second == s.reportData.value.comments[|s.reportData.value.comments| - 1].id
  {
    var n := s.nextCommentId;
    s.CommentAdd();
    first := NewId(n);
    s.CommentAdd();
    second := NewId(n + 1);
    NewIdsDistinct(n, n + 1);
  }
}
