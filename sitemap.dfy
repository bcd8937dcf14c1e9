/**
 * The sitemap route (`app/sitemap.ts`): a fixed list of static pages
 * followed by one entry per post, category and author.
 */
module Sitemap {
  import opened Wrappers
  import opened Types

  /** The site address used when the environment gives none. */
  const DefaultSiteUrl: string := "https://insightmagazine.com"

  /** The static pages that open the sitemap. */
  const StaticCount: nat := 4

  datatype ChangeFrequency = Daily | Weekly | Monthly

  /** The date an entry carries: the time of the request, or a post's stored date. */
  datatype LastModified = RequestTime | At(timestamp: int)

  /** One sitemap entry; the priority is given in tenths (1 is 10, 0.8 is 8). */
  datatype Entry = Entry(url: string, lastModified: LastModified, changeFrequency: ChangeFrequency, priorityTenths: nat)

  /** `process.env.NEXT_PUBLIC_SITE_URL || 'https://insightmagazine.com'`. */
  function SiteUrl(env: string): (url: string)
    ensures url != ""
    ensures env != "" ==> url == env
    ensures env == "" ==> url == DefaultSiteUrl
  {
    if env != "" then env else DefaultSiteUrl
  }

  /** `post.modified_at || post.created_at`. */
  function PostModified(p: Post): (t: int)
    ensures p.modifiedAt.Some? ==> t == p.modifiedAt.value
    ensures p.modifiedAt.None? ==> t == p.createdAt
  {
    match p.modifiedAt
    case Some(t) => t
    case None => p.createdAt
  }

  /** Home, about and the two index pages, dated at the request. */
  function StaticPages(site: string): (entries: seq<Entry>)
    ensures |entries| == StaticCount
    ensures entries[0].url == site && entries[1].url == site + "/about"
    ensures entries[2].url == site + "/categories" && entries[3].url == site + "/authors"
    ensures forall i :: 0 <= i < |entries| ==> entries[i].lastModified == RequestTime
    ensures entries[0].changeFrequency == Daily && entries[1].changeFrequency == Monthly
    ensures entries[2].changeFrequency == Weekly && entries[3].changeFrequency == Weekly
    ensures entries[0].priorityTenths == 10
    ensures forall i :: 1 <= i < |entries| ==> entries[i].priorityTenths == 8
  {
    [ Entry(site, RequestTime, Daily, 10),
      Entry(site + "/about", RequestTime, Monthly, 8),
      Entry(site + "/categories", RequestTime, Weekly, 8),
      Entry(site + "/authors", RequestTime, Weekly, 8) ]
  }

  /** A post's entry carries the post's own date. */
  function PostEntry(site: string, p: Post): (e: Entry)
    ensures e.url == site + "/posts/" + p.slug
    ensures e.lastModified == At(PostModified(p))
    ensures e.changeFrequency == Weekly && e.priorityTenths == 9
  {
    Entry(site + "/posts/" + p.slug, At(PostModified(p)), Weekly, 9)
  }

  function CategoryEntry(site: string, c: Category): (e: Entry)
    ensures e.url == site + "/categories/" + c.slug
    ensures e.lastModified == RequestTime
    ensures e.changeFrequency == Weekly && e.priorityTenths == 7
  {
    Entry(site + "/categories/" + c.slug, RequestTime, Weekly, 7)
  }

  function AuthorEntry(site: string, a: Author): (e: Entry)
    ensures e.url == site + "/authors/" + a.slug
    ensures e.lastModified == RequestTime
    ensures e.changeFrequency == Weekly && e.priorityTenths == 7
  {
    Entry(site + "/authors/" + a.slug, RequestTime, Weekly, 7)
  }

  /** `[...staticPages, ...postPages, ...categoryPages, ...authorPages]`. */
  function SitemapEntries(env: string, posts: seq<Post>, categories: seq<Category>, authors: seq<Author>)
    : (entries: seq<Entry>)
    ensures |entries| == StaticCount + |posts| + |categories| + |authors|
    ensures entries[..StaticCount] == StaticPages(SiteUrl(env))
    ensures forall i :: 0 <= i < |posts| ==>
      entries[StaticCount + i] == PostEntry(SiteUrl(env), posts[i])
    ensures forall i :: 0 <= i < |categories| ==>
      entries[StaticCount + |posts| + i] == CategoryEntry(SiteUrl(env), categories[i])
    ensures forall i :: 0 <= i < |authors| ==>
      entries[StaticCount + |posts| + |categories| + i] == AuthorEntry(SiteUrl(env), authors[i])
  {
    var site := SiteUrl(env);
    var postPages := seq(|posts|, i requires 0 <= i < |posts| => PostEntry(site, posts[i]));
    var categoryPages := seq(|categories|, i requires 0 <= i < |categories| => CategoryEntry(site, categories[i]));
    var authorPages := seq(|authors|, i requires 0 <= i < |authors| => AuthorEntry(site, authors[i]));
    StaticPages(site) + postPages + categoryPages + authorPages
  }

  /** Every entry's address starts with the site address. */
  lemma UrlsUnderSite(env: string, posts: seq<Post>, categories: seq<Category>, authors: seq<Author>)
    ensures forall e :: e in SitemapEntries(env, posts, categories, authors) ==> SiteUrl(env) <= e.url
  {
    var site := SiteUrl(env);
    var entries := SitemapEntries(env, posts, categories, authors);
    forall e | e in entries ensures site <= e.url {
      var k :| 0 <= k < |entries| && entries[k] == e;
      if k < StaticCount {
        assert entries[k] == StaticPages(site)[k];
      } else if k < StaticCount + |posts| {
        assert e == PostEntry(site, posts[k - StaticCount]);
      } else if k < StaticCount + |posts| + |categories| {
        assert e == CategoryEntry(site, categories[k - StaticCount - |posts|]);
      } else {
        assert e == AuthorEntry(site, authors[k - StaticCount - |posts| - |categories|]);
      }
    }
  }

  /** The page a sitemap address leads to, as the site's routes read it. */
  datatype Page =
    | Home | About | CategoryIndex | AuthorIndex
    | PostPage(slug: string) | CategoryPage(slug: string) | AuthorPage(slug: string)
    | Unknown

  /** The route of a path below the site address. */
  function ParsePath(path: string): Page
  {
    if path == "" then Home
    else if path == "/about" then About
    else if path == "/categories" then CategoryIndex
    else if path == "/authors" then AuthorIndex
    else if "/posts/" <= path then PostPage(path[|"/posts/"|..])
    else if "/categories/" <= path then CategoryPage(path[|"/categories/"|..])
    else if "/authors/" <= path then AuthorPage(path[|"/authors/"|..])
    else Unknown
  }

  /** The route of a full address on `site`. */
  function PageOf(site: string, url: string): Page
  {
    if site <= url then ParsePath(url[|site|..]) else Unknown
  }

  /** The pages the sitemap is meant to list, in order. */
  function IntendedPages(posts: seq<Post>, categories: seq<Category>, authors: seq<Author>): (pages: seq<Page>)
    ensures |pages| == StaticCount + |posts| + |categories| + |authors|
  {
    [Home, About, CategoryIndex, AuthorIndex]
      + seq(|posts|, i requires 0 <= i < |posts| => PostPage(posts[i].slug))
      + seq(|categories|, i requires 0 <= i < |categories| => CategoryPage(categories[i].slug))
      + seq(|authors|, i requires 0 <= i < |authors| => AuthorPage(authors[i].slug))
  }

  lemma PostPathParses(slug: string)
    ensures ParsePath("/posts/" + slug) == PostPage(slug)
  {
    var path := "/posts/" + slug;
    assert path[1] == 'p';
    assert "/posts/" <= path;
  }

  lemma CategoryPathParses(slug: string)
    ensures ParsePath("/categories/" + slug) == CategoryPage(slug)
  {
    var path := "/categories/" + slug;
    assert path[1] == 'c' && |path| > |"/categories"|;
    assert !("/posts/" <= path) by { assert path[1] != "/posts/"[1]; }
    assert "/categories/" <= path;
  }

  lemma AuthorPathParses(slug: string)
    ensures ParsePath("/authors/" + slug) == AuthorPage(slug)
  {
    var path := "/authors/" + slug;
    assert path[1] == 'a' && path[2] == 'u' && |path| > |"/authors"|;
    assert path != "/about" by { assert "/about"[2] == 'b'; }
    assert !("/posts/" <= path) by { assert path[1] != "/posts/"[1]; }
    assert !("/categories/" <= path) by { assert path[1] != "/categories/"[1]; }
    assert "/authors/" <= path;
  }

  /** An address built on the site address routes by the path appended to it. */
  lemma PageOfAppended(site: string, path: string)
    ensures PageOf(site, site + path) == ParsePath(path)
  {
    assert site <= site + path;
    assert (site + path)[|site|..] == path;
  }

  /** Every sitemap address leads back to the page it was made for. */
  lemma SitemapRoundTrip(env: string, posts: seq<Post>, categories: seq<Category>, authors: seq<Author>)
    ensures var entries := SitemapEntries(env, posts, categories, authors);
      var pages := IntendedPages(posts, categories, authors);
      |entries| == |pages| &&
      forall k :: 0 <= k < |entries| ==> PageOf(SiteUrl(env), entries[k].url) == pages[k]
  {
    var site := SiteUrl(env);
    var entries := SitemapEntries(env, posts, categories, authors);
    var pages := IntendedPages(posts, categories, authors);
    forall k | 0 <= k < |entries| ensures PageOf(site, entries[k].url) == pages[k] {
      var n, m := StaticCount + |posts|, StaticCount + |posts| + |categories|;
      if k == 0 {
        assert entries[k] == StaticPages(site)[0];
        PageOfAppended(site, "");
        assert site + "" == site;
      } else if k == 1 {
        assert entries[k] == StaticPages(site)[1];
        PageOfAppended(site, "/about");
      } else if k == 2 {
        assert entries[k] == StaticPages(site)[2];
        PageOfAppended(site, "/categories");
      } else if k == 3 {
        assert entries[k] == StaticPages(site)[3];
        PageOfAppended(site, "/authors");
        assert "/authors" != "/about" by { assert "/authors"[2] != "/about"[2]; }
      } else if k < n {
        var slug := posts[k - StaticCount].slug;
        assert entries[k].url == site + ("/posts/" + slug);
        PageOfAppended(site, "/posts/" + slug);
        PostPathParses(slug);
      } else if k < m {
        var slug := categories[k - n].slug;
        assert entries[k].url == site + ("/categories/" + slug);
        PageOfAppended(site, "/categories/" + slug);
        CategoryPathParses(slug);
      } else {
        var slug := authors[k - m].slug;
        assert entries[k].url == site + ("/authors/" + slug);
        PageOfAppended(site, "/authors/" + slug);
        AuthorPathParses(slug);
      }
    }
  }

  /**
   * With slugs unique within each record type, as the content store keeps
   * them, the intended pages are pairwise different.
   */
  lemma IntendedPagesDistinct(posts: seq<Post>, categories: seq<Category>, authors: seq<Author>)
    requires forall i, j :: 0 <= i < j < |posts| ==> posts[i].slug != posts[j].slug
    requires forall i, j :: 0 <= i < j < |categories| ==> categories[i].slug != categories[j].slug
    requires forall i, j :: 0 <= i < j < |authors| ==> authors[i].slug != authors[j].slug
    ensures var pages := IntendedPages(posts, categories, authors);
      forall i, j :: 0 <= i < j < |pages| ==> pages[i] != pages[j]
  {
    var pages := IntendedPages(posts, categories, authors);
    var n, m := StaticCount + |posts|, StaticCount + |posts| + |categories|;
    forall i, j | 0 <= i < j < |pages| ensures pages[i] != pages[j] {
      if StaticCount <= i < j < n {
        assert pages[i] == PostPage(posts[i - StaticCount].slug);
        assert pages[j] == PostPage(posts[j - StaticCount].slug);
      } else if n <= i < j < m {
        assert pages[i] == CategoryPage(categories[i - n].slug);
        assert pages[j] == CategoryPage(categories[j - n].slug);
      } else if m <= i {
        assert pages[i] == AuthorPage(authors[i - m].slug);
        assert pages[j] == AuthorPage(authors[j - m].slug);
      }
    }
  }

  /** With slugs unique within each record type, no address appears twice in the sitemap. */
  lemma SitemapUrlsDistinct(env: string, posts: seq<Post>, categories: seq<Category>, authors: seq<Author>)
    requires forall i, j :: 0 <= i < j < |posts| ==> posts[i].slug != posts[j].slug
    requires forall i, j :: 0 <= i < j < |categories| ==> categories[i].slug != categories[j].slug
    requires forall i, j :: 0 <= i < j < |authors| ==> authors[i].slug != authors[j].slug
    ensures var entries := SitemapEntries(env, posts, categories, authors);
      forall i, j :: 0 <= i < j < |entries| ==> entries[i].url != entries[j].url
  {
    var entries := SitemapEntries(env, posts, categories, authors);
    var pages := IntendedPages(posts, categories, authors);
    SitemapRoundTrip(env, posts, categories, authors);
    IntendedPagesDistinct(posts, categories, authors);
    forall i, j | 0 <= i < j < |entries| ensures entries[i].url != entries[j].url {
      assert PageOf(SiteUrl(env), entries[i].url) != PageOf(SiteUrl(env), entries[j].url);
    }
  }
}
