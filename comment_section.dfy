/** The comment thread under a post (`CommentSection.tsx`): the new-comment box, the
    reply and report forms, and who may delete a comment. The `on...` callbacks belong
    to the page; a handler's call of one is returned as its result. */
module CommentSection {
  import opened Js
  import opened Types

  /** What `onAddComment` receives. */
  datatype NewComment = NewComment(postId: string, content: string, authorName: string,
                                   authorEmail: string, authorId: Option<string>,
                                   status: CommentStatus)

  /** `canModerateComment`: a signed-in user who wrote the comment. */
  predicate CanModerate(currentUserId: Option<string>, c: Comment) {
    TruthyText(currentUserId) && c.authorId == currentUserId
  }

  lemma CanModerateIff(currentUserId: Option<string>, c: Comment)
    ensures CanModerate(currentUserId, c) <==>
      currentUserId.Some? && currentUserId.value != "" && c.authorId == Some(currentUserId.value)
    ensures currentUserId.None? || currentUserId == Some("") ==> !CanModerate(currentUserId, c)
  {
  }

  /** The Reply and Report buttons: the open comment closes, another one opens. */
  function ToggleOpen(open: Option<string>, id: string): (r: Option<string>)
    ensures open == Some(id) ==> r.None?
    ensures open != Some(id) ==> r == Some(id)
  {
    if open == Some(id) then None else Some(id)
  }

  /** Two clicks on the same comment's button close the form again, whichever comment
      was open before. */
  lemma ToggleOpenTwice(open: Option<string>, id: string)
    ensures ToggleOpen(ToggleOpen(open, id), id) == if open == Some(id) then Some(id) else None
  {
  }

  /** The submit buttons are disabled exactly when the form's text is blank. */
  predicate SubmitDisabled(text: string) {
    Trim(text) == ""
  }

  lemma SubmitDisabledIff(text: string)
    ensures SubmitDisabled(text) <==> IsBlank(text)
  {
    TrimEmptyIffBlank(text);
  }

  datatype SectionState = SectionState(newComment: string, replyTo: Option<string>, replyText: string,
                                       showReportForm: Option<string>, reportReason: string)

  class Section {
    const postId: string
    const currentUserId: Option<string>
    var newComment: string
    var replyTo: Option<string>
    var replyText: string
    var showReportForm: Option<string>
    var reportReason: string

    function Snapshot(): SectionState
      reads this
    {
      SectionState(newComment, replyTo, replyText, showReportForm, reportReason)
    }

    constructor(postId: string, currentUserId: Option<string>)
      ensures this.postId == postId && this.currentUserId == currentUserId
      ensures Snapshot() == SectionState("", None, "", None, "")
    {
      this.postId := postId;
      this.currentUserId := currentUserId;
      newComment := "";
      replyTo := None;
      replyText := "";
      showReportForm := None;
      reportReason := "";
    }

    method SetNewComment(text: string)
      modifies this
      ensures Snapshot() == old(Snapshot()).(newComment := text)
    {
      newComment := text;
    }

    method SetReplyText(text: string)
      modifies this
      ensures Snapshot() == old(Snapshot()).(replyText := text)
    {
      replyText := text;
    }

    method SetReportReason(reason: string)
      modifies this
      ensures Snapshot() == old(Snapshot()).(reportReason := reason)
    {
      reportReason := reason;
    }

    /** `handleSubmitComment`: a blank comment is not sent and the text stays; any
        other is sent as a pending comment by the current user and the box empties. */
    method HandleSubmitComment() returns (sent: Option<NewComment>)
      modifies this
      ensures IsBlank(old(newComment)) ==> sent.None? && Snapshot() == old(Snapshot())
      ensures !IsBlank(old(newComment)) ==>
        sent == Some(NewComment(postId, old(newComment), "Anonymous", "", currentUserId, Pending))
        && Snapshot() == old(Snapshot()).(newComment := "")
    {
      TrimEmptyIffBlank(newComment);
      if Trim(newComment) == "" {
        return None;
      }
      sent := Some(NewComment(postId, newComment, "Anonymous", "", currentUserId, Pending));
      newComment := "";
    }

    /** `handleSubmitReply`: needs non-blank text and an open reply; sending clears both. */
    method HandleSubmitReply() returns (sent: Option<(string, string)>)
      modifies this
      ensures IsBlank(old(replyText)) || !TruthyText(old(replyTo)) ==> sent.None? && Snapshot() == old(Snapshot())
      ensures !IsBlank(old(replyText)) && TruthyText(old(replyTo)) ==>
        sent == Some((old(replyTo).value, old(replyText)))
        && Snapshot() == old(Snapshot()).(replyTo := None, replyText := "")
    {
      TrimEmptyIffBlank(replyText);
      if Trim(replyText) == "" || !TruthyText(replyTo) {
        return None;
      }
      sent := Some((replyTo.value, replyText));
      replyTo := None;
      replyText := "";
    }

    /** `handleReportComment`: needs a non-blank reason; sending closes the form and
        clears the reason. */
    method HandleReportComment(id: string) returns (sent: Option<(string, string)>)
      modifies this
      ensures IsBlank(old(reportReason)) ==> sent.None? && Snapshot() == old(Snapshot())
      ensures !IsBlank(old(reportReason)) ==>
        sent == Some((id, old(reportReason)))
        && Snapshot() == old(Snapshot()).(showReportForm := None, reportReason := "")
    {
      TrimEmptyIffBlank(reportReason);
      if Trim(reportReason) == "" {
        return None;
      }
      sent := Some((id, reportReason));
      showReportForm := None;
      reportReason := "";
    }

    method ClickReply(id: string)
      modifies this
      ensures Snapshot() == old(Snapshot()).(replyTo := ToggleOpen(old(replyTo), id))
    {
      replyTo := ToggleOpen(replyTo, id);
    }

    method ClickReport(id: string)
      modifies this
      ensures Snapshot() == old(Snapshot()).(showReportForm := ToggleOpen(old(showReportForm), id))
    {
      showReportForm := ToggleOpen(showReportForm, id);
    }

    method CancelReply()
      modifies this
      ensures Snapshot() == old(Snapshot()).(replyTo := None, replyText := "")
    {
      replyTo := None;
      replyText := "";
    }

    method CancelReport()
      modifies this
      ensures Snapshot() == old(Snapshot()).(showReportForm := None, reportReason := "")
    {
      showReportForm := None;
      reportReason := "";
    }
  }
}
