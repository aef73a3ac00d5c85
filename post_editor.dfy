/** The post editor (`PostEditor.tsx`): the post being written, the text inputs that
    each set one field, the comma-separated tag input and the slug button. Loading and
    saving go to the database and are not part of this model. */
module PostEditor {
  import opened Js
  import opened Seqs
  import Utils

  /** The editor's own post record; `status` is draft, published or archived. */
  datatype EditorPost = EditorPost(id: Option<string>, title: string, content: string,
                                   excerpt: string, slug: string, status: string,
                                   categoryId: string, tags: seq<string>,
                                   featuredImage: Option<string>, seoTitle: Option<string>,
                                   seoDescription: Option<string>, publishedAt: Option<int>)

  const InitialPost := EditorPost(None, "", "", "", "", "draft", "", [], Some(""), Some(""), Some(""), None)

  /** The fields the text inputs write through `handleInputChange`. */
  datatype TextField = Title | Content | Excerpt | Slug | Status | CategoryId | SeoTitle | SeoDescription

  function Get(p: EditorPost, f: TextField): Option<string> {
    match f
    case Title => Some(p.title)
    case Content => Some(p.content)
    case Excerpt => Some(p.excerpt)
    case Slug => Some(p.slug)
    case Status => Some(p.status)
    case CategoryId => Some(p.categoryId)
    case SeoTitle => p.seoTitle
    case SeoDescription => p.seoDescription
  }

  /** `{ ...prev, [field]: value }`. */
  function SetField(p: EditorPost, f: TextField, value: string): EditorPost {
    match f
    case Title => p.(title := value)
    case Content => p.(content := value)
    case Excerpt => p.(excerpt := value)
    case Slug => p.(slug := value)
    case Status => p.(status := value)
    case CategoryId => p.(categoryId := value)
    case SeoTitle => p.(seoTitle := Some(value))
    case SeoDescription => p.(seoDescription := Some(value))
  }

  /** An input change sets its own field and leaves every other text field, the tags,
      the id and the dates as they were. */
  lemma SetFieldFrame(p: EditorPost, f: TextField, value: string)
    ensures forall g :: Get(SetField(p, f, value), g) == if g == f then Some(value) else Get(p, g)
    ensures var q := SetField(p, f, value);
      q.tags == p.tags && q.id == p.id && q.featuredImage == p.featuredImage && q.publishedAt == p.publishedAt
  {
  }

  /** Writing back a field's own value changes nothing. */
  lemma SetFieldSame(p: EditorPost, f: TextField)
    requires Get(p, f).Some?
    ensures SetField(p, f, Get(p, f).value) == p
  {
  }

  function TrimAll(pieces: seq<string>): (r: seq<string>)
    ensures |r| == |pieces| && forall k :: 0 <= k < |pieces| ==> r[k] == Trim(pieces[k])
  {
    seq(|pieces|, (k: int) requires 0 <= k < |pieces| => Trim(pieces[k]))
  }

  predicate NonEmpty(s: string) {
    s != []
  }

  /** `value.split(',').map(tag => tag.trim()).filter(tag => tag)`. */
  function ParseTags(value: string): seq<string> {
    Filter(TrimAll(Split(value, ',')), NonEmpty)
  }

  /** A trimmed piece keeps no comma the piece did not have and has no white space at
      either end. */
  lemma TrimPiece(piece: string)
    requires ',' !in piece
    ensures ',' !in Trim(piece) && IsTrimmed(Trim(piece))
  {
    TrimChars(piece);
    TrimIsTrimmed(piece);
  }

  /** The tags are the comma-separated pieces, trimmed, without the empty ones, in
      order: at most one more than there are commas, none empty, none with white space
      at an end, none with a comma. */
  lemma ParseTagsProps(value: string)
    ensures |ParseTags(value)| <= CountOf(value, ',') + 1
    ensures IsSubsequence(ParseTags(value), TrimAll(Split(value, ',')))
    ensures forall t :: t in ParseTags(value) ==> t != "" && IsTrimmed(t) && ',' !in t
  {
    var pieces := Split(value, ',');
    SplitProps(value, ',');
    var trimmed := TrimAll(pieces);
    forall t | t in ParseTags(value) ensures t != "" && IsTrimmed(t) && ',' !in t {
      var k :| 0 <= k < |trimmed| && trimmed[k] == t;
      TrimPiece(pieces[k]);
    }
  }

  /** Tags that are non-empty, trimmed and comma-free come back unchanged from the tag
      input when typed joined by commas. */
  lemma ParseTagsJoin(tags: seq<string>)
    requires |tags| >= 1
    requires forall t :: t in tags ==> t != "" && IsTrimmed(t) && ',' !in t
    ensures ParseTags(Join(tags, [','])) == tags
  {
    assert forall k :: 0 <= k < |tags| ==> ',' !in tags[k] by {
      forall k | 0 <= k < |tags| ensures ',' !in tags[k] {
        assert tags[k] in tags;
      }
    }
    SplitJoin(tags, ',');
    forall k | 0 <= k < |tags| ensures Trim(tags[k]) == tags[k] {
      assert tags[k] in tags;
      TrimTrimmed(tags[k]);
    }
    assert TrimAll(tags) == tags;
    FilterAll(tags, NonEmpty);
  }

  /** The pieces `split(',')` finds in tags joined by `", "`: every tag after the first
      keeps the space that followed its comma. */
  function SpacedPieces(tags: seq<string>): (r: seq<string>)
    requires |tags| >= 1
    ensures |r| == |tags| && r[0] == tags[0]
    ensures forall k :: 1 <= k < |tags| ==> r[k] == " " + tags[k]
  {
    [tags[0]] + seq(|tags| - 1, (k: int) requires 0 <= k < |tags| - 1 => " " + tags[k + 1])
  }

  /** Joining with `", "` is joining the spaced pieces with `","`. */
  lemma {:induction false} JoinCommaSpace(tags: seq<string>)
    requires |tags| >= 1
    ensures Join(tags, ", ") == Join(SpacedPieces(tags), [','])
    decreases |tags|
  {
    if |tags| > 1 {
      var rest := tags[1..];
      JoinCommaSpace(rest);
      var pr, pt := SpacedPieces(rest), SpacedPieces(tags);
      assert pt[1..] == [" " + pr[0]] + pr[1..];
      JoinPrefixFirst(" ", pr, [',']);
      assert Join(tags, ", ") == tags[0] + [','] + (" " + Join(rest, ", "));
    }
  }

  /** The spaced pieces hold no comma, and trimming them gives back the tags. */
  lemma SpacedPiecesTrim(tags: seq<string>)
    requires |tags| >= 1
    requires forall t :: t in tags ==> t != "" && IsTrimmed(t) && ',' !in t
    ensures forall k :: 0 <= k < |tags| ==> ',' !in SpacedPieces(tags)[k]
    ensures TrimAll(SpacedPieces(tags)) == tags
  {
    var pieces := SpacedPieces(tags);
    forall k | 0 <= k < |pieces| ensures ',' !in pieces[k] && Trim(pieces[k]) == tags[k] {
      assert tags[k] in tags;
      if k == 0 {
        TrimTrimmed(tags[k]);
      } else {
        TrimLeadingSpace(tags[k]);
      }
    }
  }

  /** The text the tag input shows, `post.tags.join(', ')`, also parses back to the tags
      when they are non-empty, trimmed and comma-free. */
  lemma ParseTagsJoinSpaced(tags: seq<string>)
    requires |tags| >= 1
    requires forall t :: t in tags ==> t != "" && IsTrimmed(t) && ',' !in t
    ensures ParseTags(Join(tags, ", ")) == tags
  {
    JoinCommaSpace(tags);
    SpacedPiecesTrim(tags);
    SplitJoin(SpacedPieces(tags), ',');
    FilterAll(tags, NonEmpty);
  }

  /** The slug button: the slug of the title, written into the slug field only. */
  function WithSlug(p: EditorPost): (q: EditorPost)
    ensures q == p.(slug := Utils.EditorSlug(p.title))
    ensures Utils.IsSlug(q.slug) && Utils.EditorSlug(q.slug) == q.slug
  {
    Utils.EditorSlugProps(p.title);
    p.(slug := Utils.EditorSlug(p.title))
  }

  /** Pressing the slug button twice gives the same post as pressing it once. */
  lemma WithSlugIdempotent(p: EditorPost)
    ensures WithSlug(WithSlug(p)) == WithSlug(p)
  {
  }

  datatype EditorState = EditorState(post: EditorPost, showPreview: bool)

  class Editor {
    var post: EditorPost
    var showPreview: bool

    function Snapshot(): EditorState
      reads this
    {
      EditorState(post, showPreview)
    }

    /** A new post: empty text, status draft, no tags, preview hidden. */
    constructor()
      ensures Snapshot() == EditorState(InitialPost, false)
    {
      post := InitialPost;
      showPreview := false;
    }

    /** `handleInputChange`. */
    method HandleInputChange(f: TextField, value: string)
      modifies this
      ensures Snapshot() == old(Snapshot()).(post := SetField(old(post), f, value))
    {
      post := SetField(post, f, value);
    }

    /** `handleTagInput`: the tags are replaced only when the input holds a comma. */
    method HandleTagInput(value: string)
      modifies this
      ensures ',' in value ==> Snapshot() == old(Snapshot()).(post := old(post).(tags := ParseTags(value)))
      ensures ',' !in value ==> Snapshot() == old(Snapshot())
    {
      if ',' in value {
        post := post.(tags := ParseTags(value));
      }
    }

    /** `generateSlug`. */
    method GenerateSlug()
      modifies this
      ensures Snapshot() == old(Snapshot()).(post := WithSlug(old(post)))
    {
      post := WithSlug(post);
    }

    method TogglePreview()
      modifies this
      ensures Snapshot() == old(Snapshot()).(showPreview := !old(showPreview))
    {
      showPreview := !showPreview;
    }
  }
}
