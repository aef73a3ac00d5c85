/** The global store (`store/index.ts`): one object whose fields the actions replace.
    Lists are updated by prepending or appending, by mapping an update over the entries
    with a given id, or by filtering those entries out. */
module Store {
  import opened Js
  import opened Seqs
  import opened Types

  /** Every field of the store, as one value. */
  datatype State = State(
    posts: seq<BlogPost>, currentPost: Option<BlogPost>, postsLoading: bool,
    postsError: Option<string>, categories: seq<Category>, tags: seq<Tag>,
    comments: seq<Comment>, user: Option<User>, isAuthenticated: bool, authLoading: bool,
    sidebarOpen: bool, searchQuery: string, selectedCategory: Option<string>,
    selectedTags: seq<string>)

  const Initial := State([], None, false, None, [], [], [], None, false, false, false, "", None, [])

  /** `list.map(x => x.id === id ? { ...x, ...updates } : x)`. */
  function UpdateById<T>(s: seq<T>, idOf: T -> string, id: string, apply: T -> T): seq<T> {
    MapWhere(s, (x: T) => idOf(x) == id, apply)
  }

  /** `list.filter(x => x.id !== id)`. */
  function DeleteById<T>(s: seq<T>, idOf: T -> string, id: string): seq<T> {
    Filter(s, (x: T) => idOf(x) != id)
  }

  /** An update changes exactly the entries with the id, each by the patch, and keeps the
      length and the order; an id nobody has changes nothing. */
  lemma UpdateByIdProps<T>(s: seq<T>, idOf: T -> string, id: string, apply: T -> T)
    ensures |UpdateById(s, idOf, id, apply)| == |s|
    ensures forall i :: 0 <= i < |s| && idOf(s[i]) == id ==> UpdateById(s, idOf, id, apply)[i] == apply(s[i])
    ensures forall i :: 0 <= i < |s| && idOf(s[i]) != id ==> UpdateById(s, idOf, id, apply)[i] == s[i]
    ensures (forall x :: x in s ==> idOf(x) != id) ==> UpdateById(s, idOf, id, apply) == s
  {
    if forall x :: x in s ==> idOf(x) != id {
      MapWhereNone(s, (x: T) => idOf(x) == id, apply);
    }
  }

  /** A delete removes every entry with the id, keeps every other entry in order, and
      deleting again changes nothing. */
  lemma DeleteByIdProps<T>(s: seq<T>, idOf: T -> string, id: string)
    ensures forall x :: x in DeleteById(s, idOf, id) ==> idOf(x) != id
    ensures forall x :: x in s && idOf(x) != id ==> x in DeleteById(s, idOf, id)
    ensures IsSubsequence(DeleteById(s, idOf, id), s)
    ensures DeleteById(DeleteById(s, idOf, id), idOf, id) == DeleteById(s, idOf, id)
    ensures (forall x :: x in s ==> idOf(x) != id) ==> DeleteById(s, idOf, id) == s
  {
    FilterAll(DeleteById(s, idOf, id), (x: T) => idOf(x) != id);
    if forall x :: x in s ==> idOf(x) != id {
      FilterAll(s, (x: T) => idOf(x) != id);
    }
  }

  function PostId(p: BlogPost): string { p.id }
  function CategoryId(c: Category): string { c.id }
  function TagId(t: Tag): string { t.id }
  function CommentId(c: Comment): string { c.id }

  /** A post update that supplies no id keeps every post's id, so the ids of the list are
      unchanged. */
  lemma UpdatePostKeepsIds(posts: seq<BlogPost>, id: string, u: PostPatch)
    requires u.id.None?
    ensures var r := UpdateById(posts, PostId, id, (p: BlogPost) => ApplyPostPatch(p, u));
      |r| == |posts| && forall i :: 0 <= i < |posts| ==> r[i].id == posts[i].id
  {
  }

  /** `publishedPosts`, `draftPosts` and `featuredPosts`. */
  function PublishedOf(posts: seq<BlogPost>): seq<BlogPost> {
    Filter(posts, (p: BlogPost) => p.status == Published)
  }

  function DraftsOf(posts: seq<BlogPost>): seq<BlogPost> {
    Filter(posts, (p: BlogPost) => p.status == Draft)
  }

  /** The first three published posts; the featured flag plays no part. */
  function Featured(posts: seq<BlogPost>): seq<BlogPost> {
    Slice(PublishedOf(posts), 0, 3)
  }

  /** The getters keep exactly the posts of their status, in order; the featured list is
      the published list cut at three, whether or not the posts are flagged featured. */
  lemma GettersProps(posts: seq<BlogPost>)
    ensures IsSubsequence(PublishedOf(posts), posts) && IsSubsequence(DraftsOf(posts), posts)
    ensures forall p :: p in posts ==> (p in PublishedOf(posts) <==> p.status == Published)
    ensures forall p :: p in posts ==> (p in DraftsOf(posts) <==> p.status == Draft)
    ensures var n := |PublishedOf(posts)|;
      Featured(posts) == PublishedOf(posts)[..if n < 3 then n else 3]
  {
  }

  /** What `persist` writes to storage. */
  datatype Persisted = Persisted(user: Option<User>, isAuthenticated: bool, sidebarOpen: bool)

  function Partialize(s: State): Persisted {
    Persisted(s.user, s.isAuthenticated, s.sidebarOpen)
  }

  /** Two states persist the same way exactly when they agree on the user, the
      authentication flag and the sidebar flag; nothing else reaches storage. */
  lemma PartializeIff(a: State, b: State)
    ensures Partialize(a) == Partialize(b) <==>
      a.user == b.user && a.isAuthenticated == b.isAuthenticated && a.sidebarOpen == b.sidebarOpen
  {
  }

  class BlogStore {
    var posts: seq<BlogPost>
    var currentPost: Option<BlogPost>
    var postsLoading: bool
    var postsError: Option<string>
    var categories: seq<Category>
    var tags: seq<Tag>
    var comments: seq<Comment>
    var user: Option<User>
    var isAuthenticated: bool
    var authLoading: bool
    var sidebarOpen: bool
    var searchQuery: string
    var selectedCategory: Option<string>
    var selectedTags: seq<string>

    function Snapshot(): State
      reads this
    {
      State(posts, currentPost, postsLoading, postsError, categories, tags, comments, user,
            isAuthenticated, authLoading, sidebarOpen, searchQuery, selectedCategory, selectedTags)
    }

    /** Empty lists, no user, not authenticated, no search. */
    constructor()
      ensures Snapshot() == Initial
    {
      posts := [];
      currentPost := None;
      postsLoading := false;
      postsError := None;
      categories := [];
      tags := [];
      comments := [];
      user := None;
      isAuthenticated := false;
      authLoading := false;
      sidebarOpen := false;
      searchQuery := "";
      selectedCategory := None;
      selectedTags := [];
    }

    function PublishedPosts(): seq<BlogPost>
      reads this
    {
      PublishedOf(posts)
    }

    function DraftPosts(): seq<BlogPost>
      reads this
    {
      DraftsOf(posts)
    }

    function FeaturedPosts(): seq<BlogPost>
      reads this
    {
      Featured(posts)
    }

    method SetPosts(ps: seq<BlogPost>)
      modifies this
      ensures Snapshot() == old(Snapshot()).(posts := ps)
    {
      posts := ps;
    }

    /** The new post goes first. */
    method AddPost(p: BlogPost)
      modifies this
      ensures Snapshot() == old(Snapshot()).(posts := [p] + old(posts))
      ensures |posts| == |old(posts)| + 1 && posts[0] == p
    {
      posts := [p] + posts;
    }

    method UpdatePost(id: string, u: PostPatch)
      modifies this
      ensures Snapshot() == old(Snapshot()).(posts := UpdateById(old(posts), PostId, id, (p: BlogPost) => ApplyPostPatch(p, u)))
    {
      posts := UpdateById(posts, PostId, id, (p: BlogPost) => ApplyPostPatch(p, u));
    }

    method DeletePost(id: string)
      modifies this
      ensures Snapshot() == old(Snapshot()).(posts := DeleteById(old(posts), PostId, id))
    {
      posts := DeleteById(posts, PostId, id);
    }

    method SetCurrentPost(p: Option<BlogPost>)
      modifies this
      ensures Snapshot() == old(Snapshot()).(currentPost := p)
    {
      currentPost := p;
    }

    method SetPostsLoading(loading: bool)
      modifies this
      ensures Snapshot() == old(Snapshot()).(postsLoading := loading)
    {
      postsLoading := loading;
    }

    method SetPostsError(error: Option<string>)
      modifies this
      ensures Snapshot() == old(Snapshot()).(postsError := error)
    {
      postsError := error;
    }

    method SetCategories(cs: seq<Category>)
      modifies this
      ensures Snapshot() == old(Snapshot()).(categories := cs)
    {
      categories := cs;
    }

    /** The new category goes last. */
    method AddCategory(c: Category)
      modifies this
      ensures Snapshot() == old(Snapshot()).(categories := old(categories) + [c])
      ensures |categories| == |old(categories)| + 1 && categories[|categories| - 1] == c
    {
      categories := categories + [c];
    }

    method UpdateCategory(id: string, u: CategoryPatch)
      modifies this
      ensures Snapshot() == old(Snapshot()).(categories := UpdateById(old(categories), CategoryId, id, (c: Category) => ApplyCategoryPatch(c, u)))
    {
      categories := UpdateById(categories, CategoryId, id, (c: Category) => ApplyCategoryPatch(c, u));
    }

    method DeleteCategory(id: string)
      modifies this
      ensures Snapshot() == old(Snapshot()).(categories := DeleteById(old(categories), CategoryId, id))
    {
      categories := DeleteById(categories, CategoryId, id);
    }

    method SetTags(ts: seq<Tag>)
      modifies this
      ensures Snapshot() == old(Snapshot()).(tags := ts)
    {
      tags := ts;
    }

    /** The new tag goes last. */
    method AddTag(t: Tag)
      modifies this
      ensures Snapshot() == old(Snapshot()).(tags := old(tags) + [t])
      ensures |tags| == |old(tags)| + 1 && tags[|tags| - 1] == t
    {
      tags := tags + [t];
    }

    method UpdateTag(id: string, u: TagPatch)
      modifies this
      ensures Snapshot() == old(Snapshot()).(tags := UpdateById(old(tags), TagId, id, (t: Tag) => ApplyTagPatch(t, u)))
    {
      tags := UpdateById(tags, TagId, id, (t: Tag) => ApplyTagPatch(t, u));
    }

    method DeleteTag(id: string)
      modifies this
      ensures Snapshot() == old(Snapshot()).(tags := DeleteById(old(tags), TagId, id))
    {
      tags := DeleteById(tags, TagId, id);
    }

    method SetComments(cs: seq<Comment>)
      modifies this
      ensures Snapshot() == old(Snapshot()).(comments := cs)
    {
      comments := cs;
    }

    /** The new comment goes first. */
    method AddComment(c: Comment)
      modifies this
      ensures Snapshot() == old(Snapshot()).(comments := [c] + old(comments))
      ensures |comments| == |old(comments)| + 1 && comments[0] == c
    {
      comments := [c] + comments;
    }

    method UpdateComment(id: string, u: CommentPatch)
      modifies this
      ensures Snapshot() == old(Snapshot()).(comments := UpdateById(old(comments), CommentId, id, (c: Comment) => ApplyCommentPatch(c, u)))
    {
      comments := UpdateById(comments, CommentId, id, (c: Comment) => ApplyCommentPatch(c, u));
    }

    method DeleteComment(id: string)
      modifies this
      ensures Snapshot() == old(Snapshot()).(comments := DeleteById(old(comments), CommentId, id))
    {
      comments := DeleteById(comments, CommentId, id);
    }

    method SetUser(u: Option<User>)
      modifies this
      ensures Snapshot() == old(Snapshot()).(user := u)
    {
      user := u;
    }

    method SetIsAuthenticated(authenticated: bool)
      modifies this
      ensures Snapshot() == old(Snapshot()).(isAuthenticated := authenticated)
    {
      isAuthenticated := authenticated;
    }

    method SetAuthLoading(loading: bool)
      modifies this
      ensures Snapshot() == old(Snapshot()).(authLoading := loading)
    {
      authLoading := loading;
    }

    method SetSidebarOpen(open: bool)
      modifies this
      ensures Snapshot() == old(Snapshot()).(sidebarOpen := open)
    {
      sidebarOpen := open;
    }

    method SetSearchQuery(query: string)
      modifies this
      ensures Snapshot() == old(Snapshot()).(searchQuery := query)
    {
      searchQuery := query;
    }

    method SetSelectedCategory(category: Option<string>)
      modifies this
      ensures Snapshot() == old(Snapshot()).(selectedCategory := category)
    {
      selectedCategory := category;
    }

    method SetSelectedTags(ts: seq<string>)
      modifies this
      ensures Snapshot() == old(Snapshot()).(selectedTags := ts)
    {
      selectedTags := ts;
    }
  }
}
