/**
 * The home page (`app/page.tsx`): a hero post and the grid of the remaining
 * latest articles.
 */
module HomePage {
  import opened Wrappers
  import opened Types
  import opened Seqs
  import Cosmic

  /** `featuredPosts[0] || posts[0]`: any post record is truthy. */
  function HeroPost(featured: seq<Post>, posts: seq<Post>): (hero: Option<Post>)
    ensures hero.None? <==> featured == [] && posts == []
    ensures featured != [] ==> hero == Some(featured[0])
    ensures featured == [] && posts != [] ==> hero == Some(posts[0])
  {
    if featured != [] then Some(featured[0])
    else if posts != [] then Some(posts[0])
    else None
  }

  /** `post.id !== heroPost?.id`: with no hero the right side is `undefined`, unequal to every id. */
  predicate DiffersFromHero(p: Post, hero: Option<Post>)
  {
    hero.None? || p.id != hero.value.id
  }

  /** The filter callback of `regularPosts`. */
  function NotHero(hero: Option<Post>): Post -> bool
  {
    (p: Post) => DiffersFromHero(p, hero)
  }

  /** `posts.filter(post => post.id !== heroPost?.id)`. */
  function RegularPosts(posts: seq<Post>, hero: Option<Post>): (regular: seq<Post>)
    ensures |regular| <= |posts|
    ensures forall p :: p in regular <==> p in posts && DiffersFromHero(p, hero)
    ensures hero.Some? ==> forall p :: p in regular ==> p.id != hero.value.id
  {
    Filter(NotHero(hero), posts)
  }

  /** With no hero, or a hero whose id no listed post has, the grid is the whole list. */
  lemma RegularKeepsAll(posts: seq<Post>, hero: Option<Post>)
    requires hero.None? || forall i :: 0 <= i < |posts| ==> posts[i].id != hero.value.id
    ensures RegularPosts(posts, hero) == posts
  {
    FilterAll(NotHero(hero), posts);
  }

  /** The grid drops every post sharing the hero's id, and keeps the rest in order. */
  lemma {:induction false} RegularDropsHero(posts: seq<Post>, hero: Post)
    ensures RegularPosts(posts + [hero], Some(hero)) == RegularPosts(posts, Some(hero))
    ensures RegularPosts([hero] + posts, Some(hero)) == RegularPosts(posts, Some(hero))
  {
    FilterSnoc(NotHero(Some(hero)), posts, hero);
    FilterConcat(NotHero(Some(hero)), [hero], posts);
    assert [hero][1..] == [];
  }

  /** What the home page renders. */
  datatype HomeView = HomeView(
    hero: Option<Post>,        // `HeroSection`, rendered only when there is a hero
    regular: seq<Post>,        // the `PostCard` grid
    showsEmptyMessage: bool)   // "No articles found. Check back soon!"

  /** `HomePage` over the awaited posts and featured posts. */
  function Home(posts: seq<Post>, featured: seq<Post>): (view: HomeView)
    ensures view.hero.Some? <==> featured != [] || posts != []
    ensures view.hero.Some? ==> forall p :: p in view.regular ==> p.id != view.hero.value.id
    ensures view.regular == RegularPosts(posts, HeroPost(featured, posts))
    ensures view.showsEmptyMessage <==> view.regular == []
  {
    var hero := HeroPost(featured, posts);
    var regular := RegularPosts(posts, hero);
    HomeView(hero, regular, |regular| == 0)
  }

  /**
   * With nothing featured, the first listed post becomes the hero and is left
   * out of the grid; a single post therefore shows as hero above the empty message.
   */
  lemma FirstBecomesHero(posts: seq<Post>)
    requires posts != []
    ensures Home(posts, []).hero == Some(posts[0])
    ensures Home(posts, []).regular == RegularPosts(posts[1..], Some(posts[0]))
    ensures |posts| == 1 ==> Home(posts, []).showsEmptyMessage
  {
    assert posts == [posts[0]] + posts[1..];
    RegularDropsHero(posts[1..], posts[0]);
    if |posts| == 1 {
      FilterNone(NotHero(Some(posts[0])), posts[1..]);
    }
  }

  /**
   * The page lists the posts of `getAllPosts`, so with nothing featured the
   * hero is one of the fetched posts and none of them is newer.
   */
  lemma NewestBecomesHero(response: Cosmic.Fetch<seq<Post>>)
    requires response.Ok? && response.value != []
    ensures var hero := Home(Cosmic.AllPosts(response).value, []).hero;
      hero.Some? && hero.value in response.value
      && forall p :: p in response.value ==> Cosmic.EffectiveDate(p) <= Cosmic.EffectiveDate(hero.value)
  {
    var posts := Cosmic.AllPosts(response).value;
    assert response.value[0] in posts;
    FirstBecomesHero(posts);
    forall p | p in response.value
      ensures Cosmic.EffectiveDate(p) <= Cosmic.EffectiveDate(posts[0])
    {
      var k :| 0 <= k < |posts| && posts[k] == p;
      if k > 0 {
        assert Cosmic.NewestFirstOrdered(posts);
      }
    }
  }
}
