/** The records the blog CMS passes around (`src/types/index.ts`). Timestamps are
    milliseconds since the epoch; optional properties are `Option`s, and an optional
    boolean is `false` when it is absent, which is how every reader of it treats it. */
module Types {
  import opened Js

  datatype PostStatus = Draft | Published | Scheduled

  function PostStatusName(s: PostStatus): string {
    match s
    case Draft => "draft"
    case Published => "published"
    case Scheduled => "scheduled"
  }

  datatype CommentStatus = Pending | Approved | Rejected

  function CommentStatusName(s: CommentStatus): string {
    match s
    case Pending => "pending"
    case Approved => "approved"
    case Rejected => "rejected"
  }

  datatype Category = Category(id: string, name: string, slug: string,
                               description: Option<string>, createdAt: int)

  datatype Tag = Tag(id: string, name: string, slug: string, createdAt: int)

  /** `role` is a string: the declared union is admin/editor/viewer, but the user
      administration screen also stores "author" and "subscriber". */
  datatype Author = Author(id: string, name: string, email: string, avatar: Option<string>,
                           bio: Option<string>, role: string, createdAt: int,
                           website: Option<string>)

  datatype Comment = Comment(id: string, postId: string, parentId: Option<string>,
                             authorName: string, authorEmail: string,
                             authorId: Option<string>, authorAvatar: Option<string>,
                             content: string, status: CommentStatus,
                             createdAt: int, updatedAt: int,
                             replies: Option<seq<Comment>>, isLiked: bool,
                             likeCount: Option<int>)

  datatype BlogPost = BlogPost(id: string, title: string, slug: string, content: string,
                               excerpt: string, featuredImage: Option<string>,
                               categories: seq<Category>, tags: seq<Tag>, author: Author,
                               status: PostStatus, publishedAt: Option<int>,
                               createdAt: int, updatedAt: int,
                               seoTitle: Option<string>, seoDescription: Option<string>,
                               readingTime: int, viewCount: int,
                               likeCount: Option<int>, comments: Option<seq<Comment>>,
                               isFeatured: bool)

  /** `role` and `status` are strings for the same reason as `Author.role`. */
  datatype User = User(id: string, name: string, email: string, avatar: Option<string>,
                       role: string, status: string, createdAt: int)

  /** `post.publishedAt || post.createdAt`. */
  function EffectiveDate(p: BlogPost): int {
    p.publishedAt.GetOr(p.createdAt)
  }

  /** `(a, b) => date(b) - date(a)`: the comparator that puts the newest post first. */
  function NewestFirst(a: BlogPost, b: BlogPost): int {
    EffectiveDate(b) - EffectiveDate(a)
  }

  /** `(a, b) => (b.viewCount || 0) - (a.viewCount || 0)`: the most viewed post first. */
  function MostViewedFirst(a: BlogPost, b: BlogPost): int {
    b.viewCount - a.viewCount
  }

  function CategoryIds(cs: seq<Category>): (r: seq<string>)
    ensures |r| == |cs| && forall i :: 0 <= i < |cs| ==> r[i] == cs[i].id
  {
    if cs == [] then [] else [cs[0].id] + CategoryIds(cs[1..])
  }

  function TagIds(ts: seq<Tag>): (r: seq<string>)
    ensures |r| == |ts| && forall i :: 0 <= i < |ts| ==> r[i] == ts[i].id
  {
    if ts == [] then [] else [ts[0].id] + TagIds(ts[1..])
  }

  /** `Partial<BlogPost>`: the properties an update supplies. */
  datatype PostPatch = PostPatch(
    id: Option<string>, title: Option<string>, slug: Option<string>,
    content: Option<string>, excerpt: Option<string>,
    featuredImage: Option<Option<string>>, categories: Option<seq<Category>>,
    tags: Option<seq<Tag>>, author: Option<Author>, status: Option<PostStatus>,
    publishedAt: Option<Option<int>>, createdAt: Option<int>, updatedAt: Option<int>,
    seoTitle: Option<Option<string>>, seoDescription: Option<Option<string>>,
    readingTime: Option<int>, viewCount: Option<int>, likeCount: Option<Option<int>>,
    comments: Option<Option<seq<Comment>>>, isFeatured: Option<bool>)

  /** `{ ...p, ...patch }`. */
  function ApplyPostPatch(p: BlogPost, u: PostPatch): BlogPost {
    BlogPost(u.id.GetOr(p.id), u.title.GetOr(p.title), u.slug.GetOr(p.slug),
             u.content.GetOr(p.content), u.excerpt.GetOr(p.excerpt),
             u.featuredImage.GetOr(p.featuredImage), u.categories.GetOr(p.categories),
             u.tags.GetOr(p.tags), u.author.GetOr(p.author), u.status.GetOr(p.status),
             u.publishedAt.GetOr(p.publishedAt), u.createdAt.GetOr(p.createdAt),
             u.updatedAt.GetOr(p.updatedAt), u.seoTitle.GetOr(p.seoTitle),
             u.seoDescription.GetOr(p.seoDescription), u.readingTime.GetOr(p.readingTime),
             u.viewCount.GetOr(p.viewCount), u.likeCount.GetOr(p.likeCount),
             u.comments.GetOr(p.comments), u.isFeatured.GetOr(p.isFeatured))
  }

  const EmptyPostPatch := PostPatch(None, None, None, None, None, None, None, None, None,
                                    None, None, None, None, None, None, None, None, None,
                                    None, None)

  /** Spreading a patch that supplies nothing leaves the post as it was, and a supplied
      property always wins over the old one. */
  lemma PostPatchLaws(p: BlogPost, u: PostPatch)
    ensures ApplyPostPatch(p, EmptyPostPatch) == p
    ensures u.title.Some? ==> ApplyPostPatch(p, u).title == u.title.value
    ensures u.status.Some? ==> ApplyPostPatch(p, u).status == u.status.value
    ensures u.id.None? ==> ApplyPostPatch(p, u).id == p.id
    ensures ApplyPostPatch(ApplyPostPatch(p, u), u) == ApplyPostPatch(p, u)
  {
  }

  datatype CategoryPatch = CategoryPatch(id: Option<string>, name: Option<string>,
                                         slug: Option<string>,
                                         description: Option<Option<string>>,
                                         createdAt: Option<int>)

  function ApplyCategoryPatch(c: Category, u: CategoryPatch): Category {
    Category(u.id.GetOr(c.id), u.name.GetOr(c.name), u.slug.GetOr(c.slug),
             u.description.GetOr(c.description), u.createdAt.GetOr(c.createdAt))
  }

  datatype TagPatch = TagPatch(id: Option<string>, name: Option<string>,
                               slug: Option<string>, createdAt: Option<int>)

  function ApplyTagPatch(t: Tag, u: TagPatch): Tag {
    Tag(u.id.GetOr(t.id), u.name.GetOr(t.name), u.slug.GetOr(t.slug),
        u.createdAt.GetOr(t.createdAt))
  }

  datatype CommentPatch = CommentPatch(
    id: Option<string>, postId: Option<string>, parentId: Option<Option<string>>,
    authorName: Option<string>, authorEmail: Option<string>,
    authorId: Option<Option<string>>, authorAvatar: Option<Option<string>>,
    content: Option<string>, status: Option<CommentStatus>, createdAt: Option<int>,
    updatedAt: Option<int>, replies: Option<Option<seq<Comment>>>, isLiked: Option<bool>,
    likeCount: Option<Option<int>>)

  function ApplyCommentPatch(c: Comment, u: CommentPatch): Comment {
    Comment(u.id.GetOr(c.id), u.postId.GetOr(c.postId), u.parentId.GetOr(c.parentId),
            u.authorName.GetOr(c.authorName), u.authorEmail.GetOr(c.authorEmail),
            u.authorId.GetOr(c.authorId), u.authorAvatar.GetOr(c.authorAvatar),
            u.content.GetOr(c.content), u.status.GetOr(c.status),
            u.createdAt.GetOr(c.createdAt), u.updatedAt.GetOr(c.updatedAt),
            u.replies.GetOr(c.replies), u.isLiked.GetOr(c.isLiked),
            u.likeCount.GetOr(c.likeCount))
  }
}
