/**
 * The discussion block of the route detail view: one row per comment, in order, and
 * a "+N comments" button for the comments the page does not show.
 */
module DiscussionSection {
  import opened Wrappers
  import JsText

  datatype Comment = Comment(id: string, author: string, authorAvatar: string, message: string, timestamp: string)

  /** `s.charAt(0)`: the first character, or "" for an empty text. */
  function CharAt0(s: string): string {
    if |s| > 0 then s[..1] else ""
  }

  /**
   * `totalComments ? totalComments - comments.length : 0`: an absent or zero total
   * means nothing more to show.
   */
  function RemainingComments(totalComments: Option<int>, shown: nat): int {
    if totalComments.Some? && totalComments.value != 0 then totalComments.value - shown else 0
  }

  /** One comment as drawn. */
  datatype Row = Row(fallback: string, author: string, message: string, timestamp: string)

  /** What the block draws; `more` is the "+N comments" button's text when it is shown. */
  datatype View = View(rows: seq<Row>, more: Option<string>)

  function RowOf(c: Comment): Row {
    Row(CharAt0(c.author), c.author, c.message, c.timestamp)
  }

  function Render(comments: seq<Comment>, totalComments: Option<int>): View {
    var remaining := RemainingComments(totalComments, |comments|);
    View(
      seq(|comments|, i requires 0 <= i < |comments| => RowOf(comments[i])),
      if remaining > 0 then Some("+ " + JsText.IntToString(remaining) + " comments") else None)
  }

  /**
   * The count of hidden comments is the given total less the comments shown, zero
   * when no total (or a zero total) is given, and the button appears exactly when that
   * count is positive, naming it.
   */
  lemma MoreButton(comments: seq<Comment>, totalComments: Option<int>)
    ensures var v := Render(comments, totalComments);
      && (totalComments.None? || totalComments == Some(0) ==> v.more.None?)
      && (totalComments.Some? && totalComments.value > |comments| ==>
            v.more == Some("+ " + JsText.IntToString(totalComments.value - |comments|) + " comments"))
      && (totalComments.Some? && totalComments.value <= |comments| ==> v.more.None?)
      && (v.more.Some? <==> RemainingComments(totalComments, |comments|) > 0)
  {
  }

  /** Every comment gets exactly one row, in input order, headed by its author's initial. */
  lemma RowsFollowComments(comments: seq<Comment>, totalComments: Option<int>)
    ensures var v := Render(comments, totalComments);
      && |v.rows| == |comments|
      && (forall i :: 0 <= i < |comments| ==>
            v.rows[i].author == comments[i].author && v.rows[i].message == comments[i].message
            && v.rows[i].timestamp == comments[i].timestamp)
      && (forall i :: 0 <= i < |comments| && |comments[i].author| > 0 ==>
            v.rows[i].fallback == [comments[i].author[0]])
      && (forall i :: 0 <= i < |comments| && |comments[i].author| == 0 ==> v.rows[i].fallback == "")
  {
  }
}
