/** The "related posts" ranking (`RelatedPosts.tsx`): every published post other than the
    current one is scored against the current post, the scored posts are sorted by score,
    highest first, and the first `maxPosts` are shown. Scores are exact rationals; the
    clock reading `now` (milliseconds) is a parameter. */
module RelatedPosts {
  import opened Js
  import opened Seqs
  import opened Sorting
  import opened Types

  const MsPerDay: int := 1000 * 60 * 60 * 24
  const DefaultMaxPosts: int := 3

  /** Candidates: not the current post, and published. */
  predicate Eligible(current: BlogPost, p: BlogPost) {
    p.id != current.id && p.status == Published
  }

  /** The current post's categories whose id also occurs among `p`'s categories. */
  function SharedCategories(current: BlogPost, p: BlogPost): seq<Category> {
    CategoriesAmong(current.categories, p.categories)
  }

  function CategoriesAmong(mine: seq<Category>, theirs: seq<Category>): seq<Category> {
    Filter(mine, (c: Category) => c.id in CategoryIds(theirs))
  }

  /** The current post's tags whose id also occurs among `p`'s tags. */
  function SharedTags(current: BlogPost, p: BlogPost): seq<Tag> {
    TagsAmong(current.tags, p.tags)
  }

  function TagsAmong(mine: seq<Tag>, theirs: seq<Tag>): seq<Tag> {
    Filter(mine, (t: Tag) => t.id in TagIds(theirs))
  }

  function Abs(x: int): nat {
    if x < 0 then -x else x
  }

  /** The content-length similarity: `max(0, 5 - |a - b| / max(a, b) * 5)`, added only when
      one of the contents is non-empty. */
  function LengthTerm(a: nat, b: nat): real {
    var m := if a >= b then a else b;
    if m > 0 then
      var t := 5.0 - (Abs(a - b) as real) / (m as real) * 5.0;
      if t >= 0.0 then t else 0.0
    else 0.0
  }

  /** The recency bonus, from the age in days as a real number. */
  function Recency(p: BlogPost, now: int): real {
    var days := ((now - EffectiveDate(p)) as real) / (MsPerDay as real);
    if days <= 7.0 then 2.0 else if days <= 30.0 then 1.0 else 0.0
  }

  /** The similarity score, term by term as the source adds them up. */
  function Score(current: BlogPost, p: BlogPost, now: int): real {
    (10 * |SharedCategories(current, p)|) as real
    + (5 * |SharedTags(current, p)|) as real
    + (if p.author.id == current.author.id then 8.0 else 0.0)
    + LengthTerm(|current.content|, |p.content|)
    + Recency(p, now)
    + (if p.viewCount > 100 then 1.0 else 0.0)
    + (if p.isFeatured then 2.0 else 0.0)
  }

  datatype Scored = Scored(post: BlogPost, score: real)

  /** `availablePosts.map(post => ({ post, score }))`. */
  function ScoreAll(current: BlogPost, ps: seq<BlogPost>, now: int): (r: seq<Scored>)
    ensures |r| == |ps|
    ensures forall i :: 0 <= i < |ps| ==> r[i] == Scored(ps[i], Score(current, ps[i], now))
  {
    if ps == [] then [] else [Scored(ps[0], Score(current, ps[0], now))] + ScoreAll(current, ps[1..], now)
  }

  function PostsOf(items: seq<Scored>): (r: seq<BlogPost>)
    ensures |r| == |items|
    ensures forall i :: 0 <= i < |items| ==> r[i] == items[i].post
  {
    if items == [] then [] else [items[0].post] + PostsOf(items[1..])
  }

  function Sign(x: real): int {
    if x < 0.0 then -1 else if x > 0.0 then 1 else 0
  }

  /** `(a, b) => b.score - a.score`, of which `sort` only uses the sign. */
  function HigherFirst(a: Scored, b: Scored): int {
    Sign(b.score - a.score)
  }

  function Available(current: BlogPost, all: seq<BlogPost>): seq<BlogPost> {
    Filter(all, (p: BlogPost) => Eligible(current, p))
  }

  /** The scored candidates in the order the sort leaves them. */
  function Ranked(current: BlogPost, all: seq<BlogPost>, now: int): seq<Scored> {
    SortBy(ScoreAll(current, Available(current, all), now), HigherFirst)
  }

  /** `relatedPosts`. */
  function Related(current: BlogPost, all: seq<BlogPost>, maxPosts: int, now: int): seq<BlogPost> {
    if |Available(current, all)| == 0 then []
    else PostsOf(Slice(Ranked(current, all, now), 0, maxPosts))
  }

  lemma HigherFirstIsComparator()
    ensures IsComparator(HigherFirst)
  {
  }

  /** Sorting any scored pool by `HigherFirst` leaves the scores non-increasing and
      keeps entries of equal score in pool order. */
  lemma SortedPool(pool: seq<Scored>, y: Scored)
    ensures var ranked := SortBy(pool, HigherFirst);
      (forall i, j :: 0 <= i < j < |ranked| ==> ranked[i].score >= ranked[j].score)
      && Filter(ranked, EquivTo(HigherFirst, y)) == Filter(pool, EquivTo(HigherFirst, y))
  {
    HigherFirstIsComparator();
    SortBySorted(pool, HigherFirst);
    SortByStable(pool, HigherFirst, y);
  }

  /** The first entries of a sorted pool keep the order facts of the whole ranking. */
  lemma TopOfPool(pool: seq<Scored>, maxPosts: int, y: Scored)
    ensures var top := Slice(SortBy(pool, HigherFirst), 0, maxPosts);
      (forall i, j :: 0 <= i < j < |top| ==> top[i].score >= top[j].score)
      && Filter(top, EquivTo(HigherFirst, y)) <= Filter(pool, EquivTo(HigherFirst, y))
  {
    var ranked := SortBy(pool, HigherFirst);
    var top := Slice(ranked, 0, maxPosts);
    SortedPool(pool, y);
    SlicePrefix(ranked, maxPosts);
    forall i, j | 0 <= i < j < |top| ensures top[i].score >= top[j].score {
      assert top[i] == ranked[i] && top[j] == ranked[j];
    }
    FilterPrefix(ranked, |top|, EquivTo(HigherFirst, y));
  }

  /** The posts of the first entries of a sorted pool are posts of the pool. */
  lemma TopPostsOfPool(pool: seq<Scored>, maxPosts: int)
    ensures forall p :: p in PostsOf(Slice(SortBy(pool, HigherFirst), 0, maxPosts)) ==> p in PostsOf(pool)
  {
    var ranked := SortBy(pool, HigherFirst);
    var top := Slice(ranked, 0, maxPosts);
    SliceElements(ranked, 0, maxPosts);
    forall p | p in PostsOf(top) ensures p in PostsOf(pool) {
      var i :| 0 <= i < |top| && PostsOf(top)[i] == p;
      assert top[i] in multiset(ranked);
      var j :| 0 <= j < |pool| && pool[j] == top[i];
      assert PostsOf(pool)[j] == p;
    }
  }

  /** Scoring keeps the candidates, in order. */
  lemma ScoreAllPosts(current: BlogPost, ps: seq<BlogPost>, now: int)
    ensures PostsOf(ScoreAll(current, ps, now)) == ps
  {
  }

  /** The ranking is the scored candidates, reordered, highest score first, with equal
      scores in pool order. */
  lemma RankedProps(current: BlogPost, all: seq<BlogPost>, now: int, y: Scored)
    ensures var pool := ScoreAll(current, Available(current, all), now);
      multiset(Ranked(current, all, now)) == multiset(pool)
      && (forall i, j :: 0 <= i < j < |Ranked(current, all, now)| ==>
            Ranked(current, all, now)[i].score >= Ranked(current, all, now)[j].score)
      && Filter(Ranked(current, all, now), EquivTo(HigherFirst, y))
         == Filter(pool, EquivTo(HigherFirst, y))
  {
    SortedPool(ScoreAll(current, Available(current, all), now), y);
  }

  /** Every ranked entry is an eligible post with its own score. */
  lemma RankedEntries(current: BlogPost, all: seq<BlogPost>, now: int)
    ensures forall e :: e in Ranked(current, all, now) ==>
      e.post in all && Eligible(current, e.post) && e.score == Score(current, e.post, now)
  {
    var ps := Available(current, all);
    var pool := ScoreAll(current, ps, now);
    var ranked := SortBy(pool, HigherFirst);
    forall e | e in ranked
      ensures e.post in all && Eligible(current, e.post) && e.score == Score(current, e.post, now)
    {
      assert e in multiset(ranked);
      var i :| 0 <= i < |pool| && pool[i] == e;
      assert e.post == ps[i];
      assert ps[i] in ps;
    }
  }

  /** The result never holds the current post or an unpublished one, and holds only
      posts from `all`. */
  lemma RelatedEligible(current: BlogPost, all: seq<BlogPost>, maxPosts: int, now: int)
    ensures forall p :: p in Related(current, all, maxPosts, now) ==>
      p in all && p.id != current.id && p.status == Published
  {
    var ps := Available(current, all);
    if |ps| > 0 {
      var pool := ScoreAll(current, ps, now);
      TopPostsOfPool(pool, maxPosts);
      ScoreAllPosts(current, ps, now);
    }
  }

  /** With no candidate the result is empty. */
  lemma RelatedNoneEligible(current: BlogPost, all: seq<BlogPost>, maxPosts: int, now: int)
    requires forall p :: p in all ==> !Eligible(current, p)
    ensures Related(current, all, maxPosts, now) == []
  {
    FilterNone(all, (p: BlogPost) => Eligible(current, p));
  }

  /** The result has `maxPosts` posts, or all candidates when there are fewer. */
  lemma RelatedLength(current: BlogPost, all: seq<BlogPost>, maxPosts: int, now: int)
    requires maxPosts >= 0
    ensures var n := |Available(current, all)|;
      |Related(current, all, maxPosts, now)| == if maxPosts <= n then maxPosts else n
  {
  }

  /** The result is the best-scored prefix of the ranking: scores never increase along
      it, and posts with equal scores come in the order of `all`. */
  lemma RelatedOrdered(current: BlogPost, all: seq<BlogPost>, maxPosts: int, now: int, y: Scored)
    requires |Available(current, all)| > 0
    ensures var top := Slice(Ranked(current, all, now), 0, maxPosts);
      Related(current, all, maxPosts, now) == PostsOf(top)
      && (forall i, j :: 0 <= i < j < |top| ==> top[i].score >= top[j].score)
      && Filter(top, EquivTo(HigherFirst, y))
         <= Filter(ScoreAll(current, Available(current, all), now), EquivTo(HigherFirst, y))
  {
    TopOfPool(ScoreAll(current, Available(current, all), now), maxPosts, y);
  }

  /** The length term lies in [0, 5]; it is 5 for equal non-zero lengths and 0 when
      exactly one content is empty or both are. */
  lemma LengthTermProps(a: nat, b: nat)
    ensures 0.0 <= LengthTerm(a, b) <= 5.0
    ensures a == b && a > 0 ==> LengthTerm(a, b) == 5.0
    ensures (a == 0) != (b == 0) ==> LengthTerm(a, b) == 0.0
    ensures a == 0 && b == 0 ==> LengthTerm(a, b) == 0.0
  {
    var m := if a >= b then a else b;
    if m > 0 {
      assert Abs(a - b) <= m;
      assert (a == 0) != (b == 0) ==> Abs(a - b) == m;
      UnitQuotient(Abs(a - b), m);
    }
  }

  /** A quotient of a count by a count at least as large lies in [0, 1], and is 1 for
      equal counts. */
  lemma UnitQuotient(n: nat, m: nat)
    requires 0 < m && n <= m
    ensures 0.0 <= (n as real) / (m as real) <= 1.0
    ensures n == m ==> (n as real) / (m as real) == 1.0
  {
    var q := (n as real) / (m as real);
    assert q * (m as real) == n as real;
    assert (1.0 - q) * (m as real) == (m - n) as real;
  }

  /** The recency bands, in whole milliseconds: at most 7 days old adds 2, otherwise at
      most 30 days old adds 1, and anything older adds nothing. */
  lemma RecencyBands(p: BlogPost, now: int)
    ensures var age := now - EffectiveDate(p);
      Recency(p, now) == if age <= 7 * MsPerDay then 2.0 else if age <= 30 * MsPerDay then 1.0 else 0.0
  {
    var age := now - EffectiveDate(p);
    DaysAtMost(age, 7);
    DaysAtMost(age, 30);
  }

  lemma DaysAtMost(age: int, d: int)
    ensures (age as real) / (MsPerDay as real) <= d as real <==> age <= d * MsPerDay
  {
    var q := (age as real) / (MsPerDay as real);
    assert q * (MsPerDay as real) == age as real;
    if age <= d * MsPerDay {
      assert q * (MsPerDay as real) <= (d as real) * (MsPerDay as real);
    }
  }

  /** Bounds of the shared counts: never more than the current post has, and all of them
      when the candidate carries every one of its categories. */
  lemma SharedCategoriesBounds(current: BlogPost, p: BlogPost)
    ensures |SharedCategories(current, p)| <= |current.categories|
    ensures (forall c :: c in current.categories ==> c in p.categories) ==>
      SharedCategories(current, p) == current.categories
    ensures (forall c :: c in current.categories ==> c.id !in CategoryIds(p.categories)) ==>
      SharedCategories(current, p) == []
  {
    var theirs := p.categories;
    var pred := (c: Category) => c.id in CategoryIds(theirs);
    if forall c :: c in current.categories ==> c in p.categories {
      forall c | c in current.categories ensures pred(c) {
        var j :| 0 <= j < |p.categories| && p.categories[j] == c;
        assert CategoryIds(p.categories)[j] == c.id;
      }
      FilterAll(current.categories, pred);
    }
    if forall c :: c in current.categories ==> c.id !in CategoryIds(p.categories) {
      FilterNone(current.categories, pred);
    }
  }

  /** The fixed bonuses: the same author adds exactly 8, more than 100 views adds 1 and
      the featured flag adds 2, all else being equal. */
  lemma ScoreBonuses(current: BlogPost, p: BlogPost, now: int, other: Author)
    requires other.id != current.author.id
    ensures p.author.id == current.author.id ==>
      Score(current, p, now) == Score(current, p.(author := other), now) + 8.0
    ensures p.viewCount > 100 ==>
      Score(current, p, now) == Score(current, p.(viewCount := 0), now) + 1.0
    ensures p.isFeatured ==>
      Score(current, p, now) == Score(current, p.(isFeatured := false), now) + 2.0
  {
    SameSimilarity(current, p, p.(author := other), now);
    SameSimilarity(current, p, p.(viewCount := 0), now);
    SameSimilarity(current, p, p.(isFeatured := false), now);
  }

  /** The terms that depend on categories, tags, content and dates. */
  function Similarity(current: BlogPost, p: BlogPost, now: int): real {
    (10 * |SharedCategories(current, p)|) as real
    + (5 * |SharedTags(current, p)|) as real
    + LengthTerm(|current.content|, |p.content|)
    + Recency(p, now)
  }

  /** Two candidates that agree on categories, tags, content and dates score alike but
      for the author, view and featured terms. */
  lemma SameSimilarity(current: BlogPost, p: BlogPost, q: BlogPost, now: int)
    requires p.categories == q.categories && p.tags == q.tags && p.content == q.content
    requires p.publishedAt == q.publishedAt && p.createdAt == q.createdAt
    ensures Score(current, p, now) ==
      Similarity(current, p, now)
      + (if p.author.id == current.author.id then 8.0 else 0.0)
      + (if p.viewCount > 100 then 1.0 else 0.0)
      + (if p.isFeatured then 2.0 else 0.0)
    ensures Score(current, q, now) ==
      Similarity(current, p, now)
      + (if q.author.id == current.author.id then 8.0 else 0.0)
      + (if q.viewCount > 100 then 1.0 else 0.0)
      + (if q.isFeatured then 2.0 else 0.0)
  {
    assert Similarity(current, q, now) == Similarity(current, p, now) by {
      assert EffectiveDate(q) == EffectiveDate(p);
    }
  }

  /** Every score is non-negative. */
  lemma ScoreNonNegative(current: BlogPost, p: BlogPost, now: int)
    ensures Score(current, p, now) >= 0.0
  {
    LengthTermProps(|current.content|, |p.content|);
  }

  /** Giving the candidate one more category or tag never lowers its score. */
  lemma ScoreMonotone(current: BlogPost, p: BlogPost, now: int, c: Category, t: Tag)
    ensures Score(current, p.(categories := p.categories + [c]), now) >= Score(current, p, now)
    ensures Score(current, p.(tags := p.tags + [t]), now) >= Score(current, p, now)
  {
    SharedCategoriesGrow(current, p, c);
    SharedTagsGrow(current, p, t);
  }

  lemma SharedCategoriesGrow(current: BlogPost, p: BlogPost, c: Category)
    ensures |SharedCategories(current, p.(categories := p.categories + [c]))|
         >= |SharedCategories(current, p)|
  {
    var pc := p.(categories := p.categories + [c]);
    forall x | x in current.categories && x.id in CategoryIds(p.categories)
      ensures x.id in CategoryIds(pc.categories)
    {
      var j :| 0 <= j < |p.categories| && CategoryIds(p.categories)[j] == x.id;
      assert CategoryIds(pc.categories)[j] == x.id;
    }
    FilterMonotone(current.categories, (x: Category) => x.id in CategoryIds(p.categories),
                   (x: Category) => x.id in CategoryIds(pc.categories));
  }

  lemma SharedTagsGrow(current: BlogPost, p: BlogPost, t: Tag)
    ensures |SharedTags(current, p.(tags := p.tags + [t]))| >= |SharedTags(current, p)|
  {
    var pt := p.(tags := p.tags + [t]);
    forall x | x in current.tags && x.id in TagIds(p.tags)
      ensures x.id in TagIds(pt.tags)
    {
      var j :| 0 <= j < |p.tags| && TagIds(p.tags)[j] == x.id;
      assert TagIds(pt.tags)[j] == x.id;
    }
    FilterMonotone(current.tags, (x: Tag) => x.id in TagIds(p.tags),
                   (x: Tag) => x.id in TagIds(pt.tags));
  }
}
