/**
 * The content adapter of `lib/cosmic.ts`: what it does with the records the
 * content store returns (newest-first sort, category and author filters,
 * related-post selection) and how it maps the store's errors. Every store
 * call is an input: the records it resolved to or the value it threw.
 */
module Cosmic {
  import opened Wrappers
  import opened Types
  import opened Seqs

  /** What an awaited store call produced: records, or the thrown value. */
  type Fetch<T> = Result<T, JsValue>

  /** The status the content store attaches to a "no such object" error. */
  const NotFoundStatus: int := 404

  /** The largest number of related posts returned. */
  const RelatedLimit: nat := 3

  /** The smallest same-category pool preferred over the general one. */
  const MinSameCategory: nat := 2

  // ---------------------------------------------------------------------------
  // Error policy
  // ---------------------------------------------------------------------------

  /** `hasStatus(error) && error.status === 404`. */
  function IsNotFound(error: JsValue): (b: bool)
    ensures b <==> error.Object? && error.status == Some(Number(NotFoundStatus))
    ensures b ==> HasStatus(error)
  {
    HasStatus(error) && error.status.value == Number(NotFoundStatus)
  }

  /**
   * The catch block shared by the getters: a not-found error becomes the
   * operation's empty answer, anything else is replaced by a fresh `Error`
   * carrying the operation's own message.
   */
  function Recover<T>(error: JsValue, absent: T, message: string): (r: Fetch<T>)
    ensures IsNotFound(error) ==> r == Ok(absent)
    ensures !IsNotFound(error) ==> r == Err(ErrorWith(message)) && !IsNotFound(r.error)
  {
    if IsNotFound(error) then Ok(absent) else Err(ErrorWith(message))
  }

  /** A list getter that returns the store's records as they come. */
  function ListOperation<T>(response: Fetch<seq<T>>, message: string): (r: Fetch<seq<T>>)
    ensures response.Ok? ==> r == response
    ensures r.Err? <==> response.Err? && !IsNotFound(response.error)
    ensures response.Err? && r.Ok? ==> r.value == []
    ensures r.Err? ==> r.error == ErrorWith(message) && !HasStatus(r.error)
  {
    match response
    case Ok(objects) => Ok(objects)
    case Err(error) => Recover(error, [], message)
  }

  /** A get-by-slug getter: the store's object, or `null` when it reports not found. */
  function GetOperation<T>(response: Fetch<T>, message: string): (r: Fetch<Option<T>>)
    ensures response.Ok? ==> r == Ok(Some(response.value))
    ensures r.Err? <==> response.Err? && !IsNotFound(response.error)
    ensures response.Err? && r.Ok? ==> r.value == None
    ensures r.Err? ==> r.error == ErrorWith(message) && !HasStatus(r.error)
  {
    match response
    case Ok(record) => Ok(Some(record))
    case Err(error) => Recover(error, None, message)
  }

  /** `getFeaturedPosts`: the store applies the `is_featured` filter; no re-ordering here. */
  function FeaturedPosts(response: Fetch<seq<Post>>): (r: Fetch<seq<Post>>)
    ensures response.Ok? ==> r == response
    ensures r.Err? <==> response.Err? && !IsNotFound(response.error)
    ensures response.Err? && r.Ok? ==> r.value == []
    ensures r.Err? ==> r.error == ErrorWith("Failed to fetch featured posts")
  {
    ListOperation(response, "Failed to fetch featured posts")
  }

  /** `getPostBySlug`. */
  function PostBySlug(response: Fetch<Post>): (r: Fetch<Option<Post>>)
    ensures response.Ok? ==> r == Ok(Some(response.value))
    ensures r.Err? <==> response.Err? && !IsNotFound(response.error)
    ensures response.Err? && r.Ok? ==> r.value == None
    ensures r.Err? ==> r.error == ErrorWith("Failed to fetch post")
  {
    GetOperation(response, "Failed to fetch post")
  }

  /** `getAllCategories`. */
  function AllCategories(response: Fetch<seq<Category>>): (r: Fetch<seq<Category>>)
    ensures response.Ok? ==> r == response
    ensures r.Err? <==> response.Err? && !IsNotFound(response.error)
    ensures response.Err? && r.Ok? ==> r.value == []
    ensures r.Err? ==> r.error == ErrorWith("Failed to fetch categories")
  {
    ListOperation(response, "Failed to fetch categories")
  }

  /** `getCategoryBySlug`. */
  function CategoryBySlug(response: Fetch<Category>): (r: Fetch<Option<Category>>)
    ensures response.Ok? ==> r == Ok(Some(response.value))
    ensures r.Err? <==> response.Err? && !IsNotFound(response.error)
    ensures response.Err? && r.Ok? ==> r.value == None
    ensures r.Err? ==> r.error == ErrorWith("Failed to fetch category")
  {
    GetOperation(response, "Failed to fetch category")
  }

  /** `getAllAuthors`. */
  function AllAuthors(response: Fetch<seq<Author>>): (r: Fetch<seq<Author>>)
    ensures response.Ok? ==> r == response
    ensures r.Err? <==> response.Err? && !IsNotFound(response.error)
    ensures response.Err? && r.Ok? ==> r.value == []
    ensures r.Err? ==> r.error == ErrorWith("Failed to fetch authors")
  {
    ListOperation(response, "Failed to fetch authors")
  }

  /** `getAuthorBySlug`. */
  function AuthorBySlug(response: Fetch<Author>): (r: Fetch<Option<Author>>)
    ensures response.Ok? ==> r == Ok(Some(response.value))
    ensures r.Err? <==> response.Err? && !IsNotFound(response.error)
    ensures response.Err? && r.Ok? ==> r.value == None
    ensures r.Err? ==> r.error == ErrorWith("Failed to fetch author")
  {
    GetOperation(response, "Failed to fetch author")
  }

  /** `getAboutPage`, over whatever record the store holds for the about page. */
  function AboutPage<T>(response: Fetch<T>): (r: Fetch<Option<T>>)
    ensures response.Ok? ==> r == Ok(Some(response.value))
    ensures r.Err? <==> response.Err? && !IsNotFound(response.error)
    ensures response.Err? && r.Ok? ==> r.value == None
    ensures r.Err? ==> r.error == ErrorWith("Failed to fetch about page")
  {
    GetOperation(response, "Failed to fetch about page")
  }

  /** `getPoweredByItems`, over whatever records the store holds for them. */
  function PoweredByItems<T>(response: Fetch<seq<T>>): (r: Fetch<seq<T>>)
    ensures response.Ok? ==> r == response
    ensures r.Err? <==> response.Err? && !IsNotFound(response.error)
    ensures response.Err? && r.Ok? ==> r.value == []
    ensures r.Err? ==> r.error == ErrorWith("Failed to fetch powered by items")
  {
    ListOperation(response, "Failed to fetch powered by items")
  }

  // ---------------------------------------------------------------------------
  // Newest-first order
  // ---------------------------------------------------------------------------

  /** The sort key: `metadata.published_date || created_at`. */
  function EffectiveDate(p: Post): (t: int)
    ensures p.publishedDate.Some? ==> t == p.publishedDate.value
    ensures p.publishedDate.None? ==> t == p.createdAt
  {
    match p.publishedDate
    case Some(t) => t
    case None => p.createdAt
  }

  /** Non-increasing by effective date. */
  predicate NewestFirstOrdered(s: seq<Post>)
  {
    forall i, j :: 0 <= i < j < |s| ==> EffectiveDate(s[i]) >= EffectiveDate(s[j])
  }

  /** Selects the posts whose effective date is `t`. */
  function DatedAt(t: int): Post -> bool
  {
    (p: Post) => EffectiveDate(p) == t
  }

  /** Every post in `s` is dated `t` or later. */
  predicate AllAtLeast(s: seq<Post>, t: int)
  {
    forall i :: 0 <= i < |s| ==> EffectiveDate(s[i]) >= t
  }

  /** Every post in `s` is dated `t` or earlier. */
  predicate AllAtMost(s: seq<Post>, t: int)
  {
    forall i :: 0 <= i < |s| ==> EffectiveDate(s[i]) <= t
  }

  /** Appending a post no newer than the rest keeps a list newest-first. */
  lemma OrderedSnoc(s: seq<Post>, x: Post)
    requires NewestFirstOrdered(s) && AllAtLeast(s, EffectiveDate(x))
    ensures NewestFirstOrdered(s + [x])
  {
  }

  /** Prepending a post no older than the rest keeps a list newest-first. */
  lemma OrderedCons(x: Post, s: seq<Post>)
    requires NewestFirstOrdered(s) && AllAtMost(s, EffectiveDate(x))
    ensures NewestFirstOrdered([x] + s)
  {
  }

  /**
   * `sorted` with `p` placed after every post at least as new as it: where a
   * stable sort puts an element that came after all of `sorted`.
   */
  function InsertLast(sorted: seq<Post>, p: Post): (r: seq<Post>)
    ensures |r| == |sorted| + 1
  {
    if sorted == [] || EffectiveDate(sorted[|sorted| - 1]) >= EffectiveDate(p) then
      sorted + [p]
    else
      InsertLast(sorted[..|sorted| - 1], p) + [sorted[|sorted| - 1]]
  }

  /** Inserting adds exactly the one post. */
  lemma {:induction false} InsertLastPermutes(sorted: seq<Post>, p: Post)
    ensures multiset(InsertLast(sorted, p)) == multiset(sorted) + multiset{p}
    decreases |sorted|
  {
    if sorted != [] && EffectiveDate(sorted[|sorted| - 1]) < EffectiveDate(p) {
      assert sorted == sorted[..|sorted| - 1] + [sorted[|sorted| - 1]];
      InsertLastPermutes(sorted[..|sorted| - 1], p);
    }
  }

  /** Inserting into a newest-first list keeps it newest-first. */
  lemma {:induction false} InsertLastOrdered(sorted: seq<Post>, p: Post)
    requires NewestFirstOrdered(sorted)
    ensures NewestFirstOrdered(InsertLast(sorted, p))
    decreases |sorted|
  {
    if sorted == [] || EffectiveDate(sorted[|sorted| - 1]) >= EffectiveDate(p) {
      OrderedSnoc(sorted, p);
    } else {
      var init, last := sorted[..|sorted| - 1], sorted[|sorted| - 1];
      InsertLastOrdered(init, p);
      var front := InsertLast(init, p);
      InsertLastPermutes(init, p);
      forall i | 0 <= i < |front| ensures EffectiveDate(front[i]) >= EffectiveDate(last) {
        assert front[i] in multiset(front);
        assert front[i] in multiset(init) + multiset{p};
      }
      OrderedSnoc(front, last);
    }
  }

  /**
   * `posts.sort((a, b) => dateB - dateA)` under the stable sort the language
   * requires: newest first, ties in store order.
   */
  function NewestFirst(s: seq<Post>): (r: seq<Post>)
    ensures |r| == |s|
  {
    if s == [] then [] else InsertLast(NewestFirst(s[..|s| - 1]), s[|s| - 1])
  }

  /** The sort's result is a permutation of its input. */
  lemma {:induction false} NewestFirstPermutes(s: seq<Post>)
    ensures multiset(NewestFirst(s)) == multiset(s)
  {
    if s != [] {
      assert s == s[..|s| - 1] + [s[|s| - 1]];
      NewestFirstPermutes(s[..|s| - 1]);
      InsertLastPermutes(NewestFirst(s[..|s| - 1]), s[|s| - 1]);
    }
  }

  /** The sort's result is newest-first. */
  lemma {:induction false} NewestFirstIsOrdered(s: seq<Post>)
    ensures NewestFirstOrdered(NewestFirst(s))
  {
    if s != [] {
      NewestFirstIsOrdered(s[..|s| - 1]);
      InsertLastOrdered(NewestFirst(s[..|s| - 1]), s[|s| - 1]);
    }
  }

  /** Inserting at the stable position keeps the order among equally dated posts. */
  lemma {:induction false} InsertLastStable(sorted: seq<Post>, p: Post, t: int)
    ensures Filter(DatedAt(t), InsertLast(sorted, p)) == Filter(DatedAt(t), sorted + [p])
    decreases |sorted|
  {
    if sorted != [] && EffectiveDate(sorted[|sorted| - 1]) < EffectiveDate(p) {
      var keep := DatedAt(t);
      var init, last := sorted[..|sorted| - 1], sorted[|sorted| - 1];
      assert sorted == init + [last];
      var front := InsertLast(init, p);
      assert InsertLast(sorted, p) == front + [last];
      InsertLastStable(init, p, t);
      FilterSnoc(keep, front, last);
      FilterSnoc(keep, init, p);
      FilterSnoc(keep, init, last);
      FilterSnoc(keep, sorted, p);
      if keep(p) {
        assert !keep(last);
        assert Filter(keep, front + [last]) == Filter(keep, front);
        assert Filter(keep, front) == Filter(keep, init) + [p];
        assert Filter(keep, sorted) == Filter(keep, init);
        assert Filter(keep, sorted + [p]) == Filter(keep, sorted) + [p];
        assert Filter(keep, InsertLast(sorted, p)) == Filter(keep, sorted + [p]);
      } else {
        assert Filter(keep, init + [p]) == Filter(keep, init);
        assert Filter(keep, front + [last]) == Filter(keep, init) + (if keep(last) then [last] else []);
        assert Filter(keep, sorted) == Filter(keep, init) + (if keep(last) then [last] else []);
        assert Filter(keep, sorted + [p]) == Filter(keep, sorted);
        assert Filter(keep, InsertLast(sorted, p)) == Filter(keep, sorted + [p]);
      }
    }
  }

  /** The sort is stable: the posts sharing any one date keep their store order. */
  lemma {:induction false} NewestFirstStable(s: seq<Post>, t: int)
    ensures Filter(DatedAt(t), NewestFirst(s)) == Filter(DatedAt(t), s)
  {
    if s != [] {
      var init, x := s[..|s| - 1], s[|s| - 1];
      assert s == init + [x];
      NewestFirstStable(init, t);
      InsertLastStable(NewestFirst(init), x, t);
      FilterSnoc(DatedAt(t), NewestFirst(init), x);
      FilterSnoc(DatedAt(t), init, x);
    }
  }

  /**
   * Where the insertion lands: after the first `j` posts when the post before
   * that point is at least as new as `p` and every post from there on is older.
   */
  lemma {:induction false} InsertLastAt(sorted: seq<Post>, j: nat, p: Post)
    requires j <= |sorted|
    requires j == 0 || EffectiveDate(sorted[j - 1]) >= EffectiveDate(p)
    requires forall k :: j <= k < |sorted| ==> EffectiveDate(sorted[k]) < EffectiveDate(p)
    ensures InsertLast(sorted, p) == sorted[..j] + [p] + sorted[j..]
    decreases |sorted|
  {
    if j < |sorted| {
      var init, last := sorted[..|sorted| - 1], sorted[|sorted| - 1];
      assert init[..j] == sorted[..j];
      InsertLastAt(init, j, p);
      assert sorted[j..] == init[j..] + [last];
    }
  }

  /**
   * One step of the in-place sort: the post at index `i` moves left past the
   * strictly older posts before it.
   */
  method InsertAt(a: array<Post>, i: nat)
    requires i < a.Length
    modifies a
    ensures a[..i + 1] == InsertLast(old(a[..i]), old(a[i]))
    ensures a[i + 1..] == old(a[i + 1..])
  {
    var p := a[i];
    ghost var sorted := a[..i];
    var j := i;
    while j > 0 && EffectiveDate(a[j - 1]) < EffectiveDate(p)
      invariant 0 <= j <= i
      invariant forall k :: 0 <= k < j ==> a[k] == sorted[k]
      invariant forall k :: j < k <= i ==> a[k] == sorted[k - 1]
      invariant forall k :: i < k < a.Length ==> a[k] == old(a[k])
      invariant forall k :: j <= k < i ==> EffectiveDate(sorted[k]) < EffectiveDate(p)
    {
      a[j] := a[j - 1];
      j := j - 1;
    }
    ghost var shifted := a[..];
    ShiftedIsInsertion(shifted, sorted, j, i, p);
    InsertLastAt(sorted, j, p);
    a[j] := p;
    assert a[..] == shifted[j := p];
  }

  /** The array after the shifting loop, with `p` written at `j`, holds the insertion. */
  lemma ShiftedIsInsertion(shifted: seq<Post>, sorted: seq<Post>, j: nat, i: nat, p: Post)
    requires j <= i < |shifted| && |sorted| == i
    requires forall k :: 0 <= k < j ==> shifted[k] == sorted[k]
    requires forall k :: j < k <= i ==> shifted[k] == sorted[k - 1]
    ensures shifted[j := p][..i + 1] == sorted[..j] + [p] + sorted[j..]
  {
    var inserted := sorted[..j] + [p] + sorted[j..];
    forall k | 0 <= k <= i ensures shifted[j := p][k] == inserted[k] {
      if k < j {
        assert inserted[k] == sorted[k];
      } else if k > j {
        assert inserted[k] == sorted[j..][k - j - 1] == sorted[k - 1];
      }
    }
  }

  /**
   * The in-place `posts.sort(...)`: an insertion sort that ends with the array
   * holding the stable newest-first order of what it held before.
   */
  method SortNewestFirst(a: array<Post>)
    modifies a
    ensures a[..] == NewestFirst(old(a[..]))
  {
    ghost var original := a[..];
    var i := 0;
    while i < a.Length
      invariant 0 <= i <= a.Length
      invariant a[..i] == NewestFirst(original[..i])
      invariant a[i..] == original[i..]
    {
      assert original[..i + 1][..i] == original[..i];
      InsertAt(a, i);
      i := i + 1;
    }
    assert original[..a.Length] == original;
  }

  // ---------------------------------------------------------------------------
  // Post getters
  // ---------------------------------------------------------------------------

  /** `getAllPosts` as a value: the store's posts, newest first. */
  function AllPosts(response: Fetch<seq<Post>>): (r: Fetch<seq<Post>>)
    ensures r.Ok? ==> NewestFirstOrdered(r.value)
    ensures response.Ok? ==> r.Ok? && multiset(r.value) == multiset(response.value)
    ensures response.Ok? ==> forall p :: p in r.value <==> p in response.value
    ensures response.Err? ==> (r.Ok? <==> IsNotFound(response.error))
    ensures response.Err? && r.Ok? ==> r.value == []
    ensures r.Err? ==> r.error == ErrorWith("Failed to fetch posts") && !HasStatus(r.error)
  {
    match response
    case Ok(objects) =>
      NewestFirstIsOrdered(objects);
      NewestFirstPermutes(objects);
      assert forall p :: p in NewestFirst(objects) <==> p in multiset(objects);
      Ok(NewestFirst(objects))
    case Err(error) => Recover(error, [], "Failed to fetch posts")
  }

  /** `getAllPosts`: the fetched array is sorted in place and returned. */
  method GetAllPosts(response: Fetch<seq<Post>>) returns (r: Fetch<seq<Post>>)
    ensures r == AllPosts(response)
  {
    match response {
      case Ok(objects) =>
        var posts := new Post[|objects|](i requires 0 <= i < |objects| => objects[i]);
        assert posts[..] == objects;
        SortNewestFirst(posts);
        r := Ok(posts[..]);
      case Err(error) =>
        r := Recover(error, [], "Failed to fetch posts");
    }
  }

  /** `categories.some(cat => cat.slug === slug)` on a post whose `categories` is an array. */
  predicate InCategory(p: Post, slug: string): (b: bool)
    ensures p.categories.None? ==> !b
    ensures b ==> exists c :: c in p.categories.value && c.slug == slug
    ensures p.categories.Some? && (exists c :: c in p.categories.value && c.slug == slug) ==> b
  {
    p.categories.Some? && exists i :: 0 <= i < |p.categories.value| && p.categories.value[i].slug == slug
  }

  /** The filter callback of `getPostsByCategory` and of the related-posts category step. */
  function BelongsTo(slug: string): Post -> bool
  {
    (p: Post) => InCategory(p, slug)
  }

  /** `author && author.slug === slug`. */
  predicate ByAuthor(p: Post, slug: string): (b: bool)
    ensures p.author.None? ==> !b
    ensures p.author.Some? ==> (b <==> p.author.value.slug == slug)
  {
    p.author.Some? && p.author.value.slug == slug
  }

  /** The filter callback of `getPostsByAuthor`. */
  function WrittenBy(slug: string): Post -> bool
  {
    (p: Post) => ByAuthor(p, slug)
  }

  /** The filter callback `post => post.id !== currentPostId`. */
  function IsNot(id: string): (keep: Post -> bool)
    ensures forall p: Post :: keep(p) <==> p.id != id
  {
    (p: Post) => p.id != id
  }

  /** A filter of a newest-first list is newest-first. */
  lemma {:induction false} FilterKeepsOrder(keep: Post -> bool, s: seq<Post>)
    requires NewestFirstOrdered(s)
    ensures NewestFirstOrdered(Filter(keep, s))
  {
    if s != [] {
      FilterKeepsOrder(keep, s[1..]);
      var rest := Filter(keep, s[1..]);
      forall i | 0 <= i < |rest| ensures EffectiveDate(rest[i]) <= EffectiveDate(s[0]) {
        assert rest[i] in s[1..];
      }
      OrderedCons(s[0], rest);
    }
  }

  /**
   * `getPostsByCategory`: the posts of `getAllPosts` listed in the category,
   * in the same order. A failure of `getAllPosts` is a status-less `Error`,
   * so the not-found test of this catch block never fires and the failure
   * always surfaces with this operation's message.
   */
  function PostsByCategory(response: Fetch<seq<Post>>, slug: string): (r: Fetch<seq<Post>>)
    ensures AllPosts(response).Ok? ==> r == Ok(Filter(BelongsTo(slug), AllPosts(response).value))
    ensures r.Ok? ==> NewestFirstOrdered(r.value) && forall p :: p in r.value ==> InCategory(p, slug)
    ensures response.Ok? ==> r.Ok? && forall p :: p in r.value <==> p in response.value && InCategory(p, slug)
    ensures r.Err? <==> response.Err? && !IsNotFound(response.error)
    ensures response.Err? && r.Ok? ==> r.value == []
    ensures r.Err? ==> r.error == ErrorWith("Failed to fetch posts by category")
  {
    match AllPosts(response)
    case Ok(all) =>
      FilterKeepsOrder(BelongsTo(slug), all);
      Ok(Filter(BelongsTo(slug), all))
    case Err(error) => Recover(error, [], "Failed to fetch posts by category")
  }

  /** `getPostsByAuthor`: the posts of `getAllPosts` by that author, in the same order. */
  function PostsByAuthor(response: Fetch<seq<Post>>, slug: string): (r: Fetch<seq<Post>>)
    ensures AllPosts(response).Ok? ==> r == Ok(Filter(WrittenBy(slug), AllPosts(response).value))
    ensures r.Ok? ==> NewestFirstOrdered(r.value) && forall p :: p in r.value ==> ByAuthor(p, slug)
    ensures response.Ok? ==> r.Ok? && forall p :: p in r.value <==> p in response.value && ByAuthor(p, slug)
    ensures r.Err? <==> response.Err? && !IsNotFound(response.error)
    ensures response.Err? && r.Ok? ==> r.value == []
    ensures r.Err? ==> r.error == ErrorWith("Failed to fetch posts by author")
  {
    match AllPosts(response)
    case Ok(all) =>
      FilterKeepsOrder(WrittenBy(slug), all);
      Ok(Filter(WrittenBy(slug), all))
    case Err(error) => Recover(error, [], "Failed to fetch posts by author")
  }

  // ---------------------------------------------------------------------------
  // Related posts
  // ---------------------------------------------------------------------------

  /**
   * The candidates of `getRelatedPosts` (`categorySlug` is "" when absent):
   * every other post, or, when a category is given and at least two other
   * posts are in it, just those.
   */
  function RelatedPool(all: seq<Post>, currentPostId: string, categorySlug: string): (pool: seq<Post>)
    ensures forall p :: p in pool ==> p in all && p.id != currentPostId
    ensures var others := Filter(IsNot(currentPostId), all);
      var same := Filter(BelongsTo(categorySlug), others);
      pool == if categorySlug != "" && |same| >= MinSameCategory then same else others
    ensures categorySlug == "" ==> pool == Filter(IsNot(currentPostId), all)
    ensures pool != Filter(IsNot(currentPostId), all) ==>
      |pool| >= MinSameCategory && forall p :: p in pool ==> InCategory(p, categorySlug)
  {
    var others := Filter(IsNot(currentPostId), all);
    if categorySlug != "" then
      var same := Filter(BelongsTo(categorySlug), others);
      if |same| >= MinSameCategory then same else others
    else others
  }

  /** The pool of a newest-first list is newest-first, so its first three are the newest candidates. */
  lemma RelatedPoolKeepsOrder(all: seq<Post>, currentPostId: string, categorySlug: string)
    requires NewestFirstOrdered(all)
    ensures NewestFirstOrdered(RelatedPool(all, currentPostId, categorySlug))
    ensures NewestFirstOrdered(Take(RelatedPool(all, currentPostId, categorySlug), RelatedLimit))
  {
    var others := Filter(IsNot(currentPostId), all);
    FilterKeepsOrder(IsNot(currentPostId), all);
    FilterKeepsOrder(BelongsTo(categorySlug), others);
  }

  /**
   * `getRelatedPosts`: at most three posts, none of them the current one,
   * taken from the front of the newest-first pool; any failure gives [].
   */
  method GetRelatedPosts(response: Fetch<seq<Post>>, currentPostId: string, categorySlug: string)
    returns (r: seq<Post>)
    ensures response.Err? ==> r == []
    ensures response.Ok? ==> r == Take(RelatedPool(NewestFirst(response.value), currentPostId, categorySlug), RelatedLimit)
    ensures |r| <= RelatedLimit
    ensures forall p :: p in r ==> p.id != currentPostId
  {
    var all := GetAllPosts(response);
    match all {
      case Ok(allPosts) =>
        var relatedPosts := Filter(IsNot(currentPostId), allPosts);
        if categorySlug != "" {
          var sameCategoryPosts := Filter(BelongsTo(categorySlug), relatedPosts);
          if |sameCategoryPosts| >= MinSameCategory {
            relatedPosts := sameCategoryPosts;
          }
        }
        r := Take(relatedPosts, RelatedLimit);
      case Err(_) =>
        r := [];
    }
  }

  /** A category with no post in the store gives the empty list, not an error. */
  lemma NoPostsInCategory(response: Fetch<seq<Post>>, slug: string)
    requires response.Ok? && forall i :: 0 <= i < |response.value| ==> !InCategory(response.value[i], slug)
    ensures PostsByCategory(response, slug) == Ok([])
  {
    var all := AllPosts(response).value;
    forall i | 0 <= i < |all| ensures !BelongsTo(slug)(all[i]) {
      assert all[i] in response.value;
    }
    FilterNone(BelongsTo(slug), all);
  }

  /** An author with no post in the store gives the empty list, not an error. */
  lemma NoPostsByAuthor(response: Fetch<seq<Post>>, slug: string)
    requires response.Ok? && forall i :: 0 <= i < |response.value| ==> !ByAuthor(response.value[i], slug)
    ensures PostsByAuthor(response, slug) == Ok([])
  {
    var all := AllPosts(response).value;
    forall i | 0 <= i < |all| ensures !WrittenBy(slug)(all[i]) {
      assert all[i] in response.value;
    }
    FilterNone(WrittenBy(slug), all);
  }

  /** A post of the examples below: published at `date`, optionally filed under one category. */
  function ExamplePost(id: string, date: int, category: Option<Category>): Post
  {
    Post(id, id, 0, None, "", None,
      match category case None => None case Some(c) => Some([c]),
      Some(date))
  }

  const Tech := Category("c", "tech", "Tech", "Tech", "", "")
  const First := ExamplePost("p1", 1, Some(Tech))
  const Second := ExamplePost("p2", 2, Some(Tech))
  const Third := ExamplePost("p3", 3, None)

  /** Three posts stored oldest first come back newest first. */
  lemma ExampleNewestFirst()
    ensures NewestFirst([First, Second, Third]) == [Third, Second, First]
  {
    assert [First, Second, Third][..2] == [First, Second];
    assert [First, Second][..1] == [First];
    assert NewestFirst([First]) == [First];
    assert NewestFirst([First, Second]) == [Second, First] by {
      assert InsertLast([First], Second) == InsertLast([], Second) + [First];
    }
    assert InsertLast([Second, First], Third) == InsertLast([Second], Third) + [First];
    assert [Second, First][..1] == [Second];
    assert InsertLast([Second], Third) == InsertLast([], Third) + [Second];
  }

  /** The "tech" listing keeps its two posts in newest-first order. */
  lemma ExampleCategory()
    ensures Filter(BelongsTo("tech"), [Third, Second, First]) == [Second, First]
  {
    assert Second.categories.value[0].slug == "tech";
    assert First.categories.value[0].slug == "tech";
    assert !InCategory(Third, "tech");
    var keep := BelongsTo("tech");
    assert [Third, Second, First][1..] == [Second, First];
    assert [Second, First][1..] == [First];
    assert [First][1..] == [];
    assert Filter(keep, [First]) == [First] + Filter(keep, []);
    assert Filter(keep, [Second, First]) == [Second] + Filter(keep, [First]);
    assert Filter(keep, [Third, Second, First]) == [] + Filter(keep, [Second, First]);
  }

  /**
   * Only one other post shares the second post's category, so its related
   * posts fall back to every other post.
   */
  lemma ExampleRelated()
    ensures Take(RelatedPool([Third, Second, First], "p2", "tech"), RelatedLimit) == [Third, First]
  {
    var all := [Third, Second, First];
    assert all[1..] == [Second, First] && [Second, First][1..] == [First] && [First][1..] == [];
    var others := Filter(IsNot("p2"), all);
    var skip := IsNot("p2");
    assert Filter(skip, [First]) == [First] + Filter(skip, []);
    assert Filter(skip, [Second, First]) == [] + Filter(skip, [First]);
    assert others == [Third] + Filter(skip, [Second, First]);
    assert others == [Third, First];
    assert First.categories.value[0].slug == "tech";
    assert !InCategory(Third, "tech");
    assert [Third, First][1..] == [First];
    var keep := BelongsTo("tech");
    assert Filter(keep, [First]) == [First] + Filter(keep, []);
    assert Filter(keep, others) == [] + Filter(keep, [First]);
  }
}
