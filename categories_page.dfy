/**
 * The categories index page (`app/categories/page.tsx`): one card per
 * category, with the number of posts filed under it.
 */
module CategoriesPage {
  import opened Wrappers
  import opened Types
  import opened Seqs
  import opened Counting
  import Cosmic

  /** The colour a category card uses when the category sets none. */
  const DefaultColor: string := "#6B7280"

  /** The slugs of a list of category entries, with repetitions. */
  function EntrySlugs(entries: seq<Category>): multiset<string>
  {
    if entries == [] then multiset{}
    else EntrySlugs(entries[..|entries| - 1]) + multiset{entries[|entries| - 1].slug}
  }

  /** The category slugs one post contributes: none unless `categories` is an array. */
  function PostSlugs(p: Post): multiset<string>
  {
    match p.categories
    case None => multiset{}
    case Some(entries) => EntrySlugs(entries)
  }

  /** Every (post, category entry) pair of `posts`, by slug. */
  function CategorySlugs(posts: seq<Post>): multiset<string>
  {
    if posts == [] then multiset{}
    else CategorySlugs(posts[..|posts| - 1]) + PostSlugs(posts[|posts| - 1])
  }

  /** The number of category entries of a post, counting a missing list as none. */
  function EntryCount(p: Post): nat
  {
    match p.categories
    case None => 0
    case Some(entries) => |entries|
  }

  /** The total length of all posts' category arrays. */
  function TotalEntries(posts: seq<Post>): nat
  {
    if posts == [] then 0 else TotalEntries(posts[..|posts| - 1]) + EntryCount(posts[|posts| - 1])
  }

  /** The inner `forEach`: one increment per category entry of a post. */
  method CountEntries(counts: map<string, nat>, entries: seq<Category>, ghost bag: multiset<string>)
    returns (r: map<string, nat>)
    requires Tallies(counts, bag)
    ensures Tallies(r, bag + EntrySlugs(entries))
  {
    r := counts;
    var j := 0;
    while j < |entries|
      invariant 0 <= j <= |entries|
      invariant Tallies(r, bag + EntrySlugs(entries[..j]))
    {
      assert entries[..j + 1][..j] == entries[..j];
      r := Increment(r, entries[j].slug);
      j := j + 1;
    }
    assert entries[..j] == entries;
  }

  /**
   * The nested `forEach` loops that fill `categoryCounts`: every entry of every
   * post whose `categories` is an array adds one under its slug.
   */
  method CountPostsPerCategory(posts: seq<Post>) returns (counts: map<string, nat>)
    ensures Tallies(counts, CategorySlugs(posts))
  {
    counts := map[];
    var i := 0;
    while i < |posts|
      invariant 0 <= i <= |posts|
      invariant Tallies(counts, CategorySlugs(posts[..i]))
    {
      assert posts[..i + 1][..i] == posts[..i];
      assert CategorySlugs(posts[..i + 1]) == CategorySlugs(posts[..i]) + PostSlugs(posts[i]);
      match posts[i].categories {
        case None =>
        case Some(entries) =>
          counts := CountEntries(counts, entries, CategorySlugs(posts[..i]));
      }
      i := i + 1;
    }
    assert posts[..i] == posts;
  }

  /** One post contributes as many slugs as it has entries. */
  lemma {:induction false} EntrySlugsSize(entries: seq<Category>)
    ensures |EntrySlugs(entries)| == |entries|
  {
    if entries != [] {
      EntrySlugsSize(entries[..|entries| - 1]);
    }
  }

  /** All counts together add up to the total number of category entries. */
  lemma {:induction false} CategorySlugsSize(posts: seq<Post>)
    ensures |CategorySlugs(posts)| == TotalEntries(posts)
  {
    if posts != [] {
      CategorySlugsSize(posts[..|posts| - 1]);
      match posts[|posts| - 1].categories {
        case None =>
        case Some(entries) => EntrySlugsSize(entries);
      }
    }
  }

  /** The sum of the filled dictionary's values is the total number of category entries. */
  lemma CountsAddUp(posts: seq<Post>, counts: map<string, nat>)
    requires Tallies(counts, CategorySlugs(posts))
    ensures Total(counts) == TotalEntries(posts)
  {
    TotalOfTally(counts, CategorySlugs(posts));
    CategorySlugsSize(posts);
  }

  /** A slug occurs among a list's entries exactly when some entry has it. */
  lemma {:induction false} EntrySlugsHas(entries: seq<Category>, slug: string)
    ensures EntrySlugs(entries)[slug] > 0 <==> exists i :: 0 <= i < |entries| && entries[i].slug == slug
  {
    if entries != [] {
      var init := entries[..|entries| - 1];
      EntrySlugsHas(init, slug);
      if exists i :: 0 <= i < |init| && init[i].slug == slug {
        var i :| 0 <= i < |init| && init[i].slug == slug;
        assert entries[i].slug == slug;
      }
      if exists i :: 0 <= i < |entries| && entries[i].slug == slug {
        var i :| 0 <= i < |entries| && entries[i].slug == slug;
        if i < |init| {
          assert init[i].slug == slug;
        }
      }
    }
  }

  /** A post contributes its slug at least once exactly when it is in the category. */
  lemma PostSlugsHas(p: Post, slug: string)
    ensures PostSlugs(p)[slug] > 0 <==> Cosmic.InCategory(p, slug)
  {
    match p.categories {
      case None =>
      case Some(entries) => EntrySlugsHas(entries, slug);
    }
  }

  /**
   * A category's count is at least the number of posts `getPostsByCategory`
   * lists for it: a post listing the slug twice counts twice.
   */
  lemma {:induction false} CountCoversFiltered(posts: seq<Post>, slug: string)
    ensures CategorySlugs(posts)[slug] >= |Filter(Cosmic.BelongsTo(slug), posts)|
  {
    if posts != [] {
      var init, last := posts[..|posts| - 1], posts[|posts| - 1];
      assert posts == init + [last];
      CountCoversFiltered(init, slug);
      FilterSnoc(Cosmic.BelongsTo(slug), init, last);
      PostSlugsHas(last, slug);
    }
  }

  /** No post lists the slug more than once. */
  ghost predicate NoRepeatedSlug(posts: seq<Post>, slug: string)
  {
    forall i :: 0 <= i < |posts| ==> PostSlugs(posts[i])[slug] <= 1
  }

  /** When no post repeats the slug, the count is exactly the filtered list's length. */
  lemma {:induction false} CountMatchesFiltered(posts: seq<Post>, slug: string)
    requires NoRepeatedSlug(posts, slug)
    ensures CategorySlugs(posts)[slug] == |Filter(Cosmic.BelongsTo(slug), posts)|
  {
    if posts != [] {
      var init, last := posts[..|posts| - 1], posts[|posts| - 1];
      assert posts == init + [last];
      assert NoRepeatedSlug(init, slug) by {
        forall i | 0 <= i < |init| ensures PostSlugs(init[i])[slug] <= 1 {
          assert init[i] == posts[i];
        }
      }
      assert PostSlugs(last)[slug] <= 1 by {
        assert last == posts[|posts| - 1];
      }
      CountMatchesFiltered(init, slug);
      FilterSnoc(Cosmic.BelongsTo(slug), init, last);
      PostSlugsHas(last, slug);
    }
  }

  /** A category shows 0 exactly when no post is filed under it. */
  lemma CountZeroIff(posts: seq<Post>, slug: string)
    ensures CategorySlugs(posts)[slug] == 0 <==> Filter(Cosmic.BelongsTo(slug), posts) == []
  {
    CountCoversFiltered(posts, slug);
    if Filter(Cosmic.BelongsTo(slug), posts) == [] {
      CountZeroWhenUnfiled(posts, slug);
    }
  }

  /** Posts that are not in the category contribute nothing to its count. */
  lemma {:induction false} CountZeroWhenUnfiled(posts: seq<Post>, slug: string)
    requires Filter(Cosmic.BelongsTo(slug), posts) == []
    ensures CategorySlugs(posts)[slug] == 0
  {
    if posts != [] {
      var init, last := posts[..|posts| - 1], posts[|posts| - 1];
      assert posts == init + [last];
      FilterSnoc(Cosmic.BelongsTo(slug), init, last);
      CountZeroWhenUnfiled(init, slug);
      PostSlugsHas(last, slug);
    }
  }

  /** `category.metadata?.color || '#6B7280'`. */
  function CardColor(c: Category): (color: string)
    ensures color != ""
    ensures c.color != "" ==> color == c.color
    ensures c.color == "" ==> color == DefaultColor
  {
    if c.color != "" then c.color else DefaultColor
  }

  /** `category.metadata?.name || category.title`. */
  function CardName(c: Category): (name: string)
    ensures c.name != "" ==> name == c.name
    ensures c.name == "" ==> name == c.title
  {
    if c.name != "" then c.name else c.title
  }

  /** What one category card shows; `description` is "" when the card has none. */
  datatype CategoryCard = CategoryCard(
    href: string, name: string, description: string, color: string, count: nat, countText: string)

  /** The card for a category with `count` posts. */
  function Card(c: Category, count: nat): (card: CategoryCard)
    ensures card.href == "/categories/" + c.slug
    ensures card.count == count && card.countText == CountLabel(count)
    ensures card.name == CardName(c) && card.color == CardColor(c) && card.description == c.description
  {
    CategoryCard("/categories/" + c.slug, CardName(c), c.description, CardColor(c), count, CountLabel(count))
  }

  /**
   * `CategoriesPage`: the posts are counted once, then every category gets a
   * card, in the order the store listed the categories.
   */
  method CategoriesPage(categories: seq<Category>, posts: seq<Post>) returns (cards: seq<CategoryCard>)
    ensures |cards| == |categories|
    ensures forall i :: 0 <= i < |cards| ==>
      cards[i] == Card(categories[i], CategorySlugs(posts)[categories[i].slug])
  {
    var counts := CountPostsPerCategory(posts);
    cards := seq(|categories|, i requires 0 <= i < |categories| =>
      Card(categories[i], Lookup(counts, categories[i].slug)));
  }
}
