/** The comment moderation screen (`CommentModeration.tsx`): comments with a status
    that may also be 'spam', a status filter, and the approve, reject and delete
    buttons, all of which only ever change a status. The loaded comments are passed in. */
module CommentModeration {
  import opened Seqs
  import Store
  import Utils

  /** The screen's own comment record; `status` is one of pending, approved, rejected
      and spam. */
  datatype ModeratedComment = ModeratedComment(id: string, content: string, authorName: string,
                                               authorEmail: string, authorAvatar: string,
                                               postTitle: string, status: string, createdAt: string)

  function CommentId(c: ModeratedComment): string { c.id }

  /** `filteredComments`: 'all' shows every comment, any other value those with it. */
  function FilteredComments(comments: seq<ModeratedComment>, statusFilter: string): seq<ModeratedComment> {
    if statusFilter == "all" then comments
    else Filter(comments, (c: ModeratedComment) => c.status == statusFilter)
  }

  lemma FilteredProps(comments: seq<ModeratedComment>, statusFilter: string)
    ensures statusFilter == "all" ==> FilteredComments(comments, statusFilter) == comments
    ensures statusFilter != "all" ==>
      var r := FilteredComments(comments, statusFilter);
      IsSubsequence(r, comments)
      && (forall c :: c in r ==> c.status == statusFilter)
      && (forall c :: c in comments && c.status == statusFilter ==> c in r)
  {
  }

  /** `handleStatusChange`. */
  function WithStatus(comments: seq<ModeratedComment>, id: string, status: string): seq<ModeratedComment> {
    Store.UpdateById(comments, CommentId, id, (c: ModeratedComment) => c.(status := status))
  }

  /** Only the status of the comments with the id changes; nothing is removed. */
  lemma WithStatusProps(comments: seq<ModeratedComment>, id: string, status: string)
    ensures var r := WithStatus(comments, id, status);
      |r| == |comments|
      && (forall i :: 0 <= i < |comments| && comments[i].id == id ==> r[i] == comments[i].(status := status))
      && (forall i :: 0 <= i < |comments| && comments[i].id != id ==> r[i] == comments[i])
  {
    Store.UpdateByIdProps(comments, CommentId, id, (c: ModeratedComment) => c.(status := status));
  }

  datatype Action = Approve | Reject | Delete

  /** The status each button writes: "Delete" rejects rather than removes. */
  function ActionStatus(a: Action): string {
    match a
    case Approve => "approved"
    case Reject => "rejected"
    case Delete => "rejected"
  }

  /** The buttons shown under a comment. */
  function Offered(status: string): seq<Action> {
    if status == "pending" then [Approve, Reject, Delete] else [Delete]
  }

  /** Approve and Reject are offered exactly for pending comments; Delete always. */
  lemma OfferedProps(status: string)
    ensures Approve in Offered(status) <==> status == "pending"
    ensures Reject in Offered(status) <==> status == "pending"
    ensures Delete in Offered(status)
  {
  }

  /** Deleting keeps every comment, so the count is unchanged, and leaves the deleted
      comment rejected. */
  lemma DeleteKeepsComment(comments: seq<ModeratedComment>, i: int)
    requires 0 <= i < |comments|
    ensures var r := WithStatus(comments, comments[i].id, ActionStatus(Delete));
      |r| == |comments| && r[i].status == "rejected" && r[i].id == comments[i].id
  {
    WithStatusProps(comments, comments[i].id, ActionStatus(Delete));
  }

  /** `getStatusColor`. */
  function StatusColor(status: string): string {
    if status == "pending" then Utils.Yellow
    else if status == "approved" then Utils.Green
    else if status == "rejected" then Utils.Red
    else if status == "spam" then Utils.Gray
    else Utils.Gray
  }

  /** The moderation badge uses the same colours as the shared comment badge: spam and
      unknown statuses are grey. */
  lemma StatusColorAgrees(status: string)
    ensures StatusColor(status) == Utils.CommentStatusColor(status)
    ensures StatusColor(status) == Utils.Gray <==> status !in {"pending", "approved", "rejected"}
  {
  }

  datatype ModerationState = ModerationState(comments: seq<ModeratedComment>, statusFilter: string)

  class Moderation {
    var comments: seq<ModeratedComment>
    var statusFilter: string

    function Snapshot(): ModerationState
      reads this
    {
      ModerationState(comments, statusFilter)
    }

    function Shown(): seq<ModeratedComment>
      reads this
    {
      FilteredComments(comments, statusFilter)
    }

    /** The screen after loading, showing every status. */
    constructor(loaded: seq<ModeratedComment>)
      ensures Snapshot() == ModerationState(loaded, "all")
      ensures Shown() == loaded
    {
      comments := loaded;
      statusFilter := "all";
    }

    method SetStatusFilter(value: string)
      modifies this
      ensures Snapshot() == old(Snapshot()).(statusFilter := value)
    {
      statusFilter := value;
    }

    method HandleStatusChange(id: string, status: string)
      modifies this
      ensures Snapshot() == old(Snapshot()).(comments := WithStatus(old(comments), id, status))
      ensures |comments| == old(|comments|)
    {
      WithStatusProps(comments, id, status);
      comments := WithStatus(comments, id, status);
    }

    /** A click on one of the buttons offered for the comment. */
    method Perform(c: ModeratedComment, a: Action)
      requires a in Offered(c.status)
      modifies this
      ensures Snapshot() == old(Snapshot()).(comments := WithStatus(old(comments), c.id, ActionStatus(a)))
    {
      HandleStatusChange(c.id, ActionStatus(a));
    }
  }
}
