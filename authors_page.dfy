/**
 * The authors index page (`app/authors/page.tsx`): one card per author, with
 * the number of posts whose embedded author has that author's slug.
 */
module AuthorsPage {
  import opened Wrappers
  import opened Types
  import opened Seqs
  import opened Counting
  import Cosmic

  /** The author slug each post with an author contributes. */
  function AuthorSlugs(posts: seq<Post>): multiset<string>
  {
    if posts == [] then multiset{}
    else
      var last := posts[|posts| - 1];
      AuthorSlugs(posts[..|posts| - 1])
        + match last.author case None => multiset{} case Some(a) => multiset{a.slug}
  }

  /** Selects the posts that embed an author. */
  predicate HasAuthor(p: Post)
  {
    p.author.Some?
  }

  /** The `forEach` loop that fills `authorCounts`: one increment per post with an author. */
  method CountPostsPerAuthor(posts: seq<Post>) returns (counts: map<string, nat>)
    ensures Tallies(counts, AuthorSlugs(posts))
  {
    counts := map[];
    var i := 0;
    while i < |posts|
      invariant 0 <= i <= |posts|
      invariant Tallies(counts, AuthorSlugs(posts[..i]))
    {
      assert posts[..i + 1][..i] == posts[..i];
      match posts[i].author {
        case None =>
        case Some(author) =>
          counts := Increment(counts, author.slug);
      }
      i := i + 1;
    }
    assert posts[..i] == posts;
  }

  /** An author's count is the number of posts `getPostsByAuthor` lists for them. */
  lemma {:induction false} CountMatchesFiltered(posts: seq<Post>, slug: string)
    ensures AuthorSlugs(posts)[slug] == |Filter(Cosmic.WrittenBy(slug), posts)|
  {
    if posts != [] {
      var init, last := posts[..|posts| - 1], posts[|posts| - 1];
      assert posts == init + [last];
      CountMatchesFiltered(init, slug);
      FilterSnoc(Cosmic.WrittenBy(slug), init, last);
    }
  }

  /** Only posts with an author are counted, each once. */
  lemma {:induction false} AuthorSlugsSize(posts: seq<Post>)
    ensures |AuthorSlugs(posts)| == |Filter(HasAuthor, posts)|
  {
    if posts != [] {
      var init, last := posts[..|posts| - 1], posts[|posts| - 1];
      assert posts == init + [last];
      AuthorSlugsSize(init);
      FilterSnoc(HasAuthor, init, last);
    }
  }

  /** The sum of the filled dictionary's values is the number of posts with an author. */
  lemma CountsAddUp(posts: seq<Post>, counts: map<string, nat>)
    requires Tallies(counts, AuthorSlugs(posts))
    ensures Total(counts) == |Filter(HasAuthor, posts)|
  {
    TotalOfTally(counts, AuthorSlugs(posts));
    AuthorSlugsSize(posts);
  }

  /** `author.metadata?.name || author.title`. */
  function CardName(a: Author): (name: string)
    ensures a.name != "" ==> name == a.name
    ensures a.name == "" ==> name == a.title
  {
    if a.name != "" then a.name else a.title
  }

  /** What one author card shows. */
  datatype AuthorCard = AuthorCard(href: string, name: string, count: nat, countText: string)

  /** The card for an author with `count` posts. */
  function Card(a: Author, count: nat): (card: AuthorCard)
    ensures card.href == "/authors/" + a.slug
    ensures card.name == CardName(a)
    ensures card.count == count && card.countText == CountLabel(count)
  {
    AuthorCard("/authors/" + a.slug, CardName(a), count, CountLabel(count))
  }

  /** `AuthorsPage`: the posts are counted once, then every author gets a card. */
  method AuthorsPage(authors: seq<Author>, posts: seq<Post>) returns (cards: seq<AuthorCard>)
    ensures |cards| == |authors|
    ensures forall i :: 0 <= i < |cards| ==>
      cards[i] == Card(authors[i], |Filter(Cosmic.WrittenBy(authors[i].slug), posts)|)
  {
    var counts := CountPostsPerAuthor(posts);
    cards := seq(|authors|, i requires 0 <= i < |authors| =>
      Card(authors[i], Lookup(counts, authors[i].slug)));
    forall i | 0 <= i < |authors|
      ensures cards[i] == Card(authors[i], |Filter(Cosmic.WrittenBy(authors[i].slug), posts)|)
    {
      CountMatchesFiltered(posts, authors[i].slug);
    }
  }
}
