# Insight Magazine: a verified model of the content logic

Insight Magazine is a server-rendered magazine site. It reads its posts, categories and authors from a hosted content store. This model covers what the site does with the records once they arrive:

- the content adapter (`lib/cosmic.ts`):
  - it sorts every post newest first;
  - it filters posts by category and by author;
  - it picks up to three related posts;
  - it maps the store's errors, so that "not found" becomes an empty answer and any other error becomes an error with an operation-specific message;
- the two helpers in `types.ts`: the reading-time estimate and the `hasStatus` test;
- the home page's hero post and the grid of the rest;
- the post counts of the categories and authors index pages, with their labels and display fallbacks;
- the sitemap's ordered list of entries.

Each store call is an input of type `Fetch<T> = Result<T, JsValue>`: either the records it resolved to, or the JavaScript value it threw. Timestamps are integers. An optional text field is `""` when absent, because the source only ever reads such fields through `||` or `&&`, where a missing field and an empty string behave alike.

Per source file, the model has this shape:

- `getAllPosts` sorts its fetched array in place. It is modelled twice:
  - as the method `Cosmic.GetAllPosts`, which copies the records into an `array` and runs an in-place insertion sort (`Cosmic.SortNewestFirst`);
  - as the function `Cosmic.AllPosts`, which is its specification. The method is proved equal to it.
- The stable order of `Array.prototype.sort` is the functional insertion sort `Cosmic.NewestFirst`, proved:
  - to be a permutation of its input;
  - to be ordered by effective date;
  - to be stable: posts with the same date keep their store order.
- The counting loops of the two index pages are methods over a `map<string, nat>`. Each is proved to tally a multiset of slugs, and that multiset is then related to the adapter's filters.
- Everything else is pure functions and lemmas, as in the source.

Modules:

- `Wrappers`: `Option` and `Result`.
- `Seqs`: `Array.prototype.filter` and `slice(0, n)`.
- `Types`: `types.ts`.
- `Cosmic`: `lib/cosmic.ts`.
- `Counting`: the dictionaries of the index pages.
- `CategoriesPage`, `AuthorsPage`, `HomePage` and `Sitemap`: the pages of the same names.

## Model

| member | source | states |
|---|---|---|
| Types.HasStatus | types.ts:80-82 | true exactly of a non-null plain object that has a `status` key; `null`, primitives and functions give false, and the key's value is not looked at |
| Types.ErrorWith | lib/cosmic.ts:30 | `new Error(message)` is an object carrying the message and no `status` key, so `hasStatus` is false of it |
| Types.SplitOnWhitespace | types.ts:87 | `split(/\s+/)` yields at least one piece; no piece holds whitespace; text without whitespace is one piece; a leading or trailing whitespace character gives an empty first or last piece |
| Types.SplitCount | types.ts:87 | the number of pieces is one more than the number of maximal whitespace runs |
| Types.ReadingTime | types.ts:85-89 | the result is at least 1 and it is the ceiling of pieces / 200: `(m-1)*200 < pieces <= m*200` |
| Types.ReadingTimeBoundary | types.ts:86-88 | 200 pieces give 1 minute and 201 pieces give 2 |
| Types.ReadingTimeMonotone | types.ts:85-89 | appending text never lowers the reading time |
| Types.ReadingTimeOfEmpty | types.ts:87-88 | the empty text splits into one empty piece and reads as 1 minute |
| Types.PostReadingTime | components/PostCard.tsx:15-16 | a post's reading time is computed from its content, with missing content read as `""`: at least 1, the ceiling of pieces / 200, and exactly 1 for a post without content |
| Seqs.Filter | lib/cosmic.ts:69-73 | `filter` keeps exactly the elements that pass and is never longer than its input |
| Seqs.FilterMultiplicity | lib/cosmic.ts:69-73 | each passing element keeps its multiplicity and each failing one is dropped |
| Seqs.FilterSnoc | lib/cosmic.ts:69-73 | filtering a list with one more element appends that element exactly when it passes, so the order is kept |
| Seqs.FilterAll | app/page.tsx:36 | a filter that every element passes returns the list unchanged |
| Seqs.FilterNone | lib/cosmic.ts:69-73 | a filter that no element passes returns `[]` |
| Seqs.Take | lib/cosmic.ts:174 | `slice(0, n)` is a prefix of length `min(n, length)` |
| Cosmic.IsNotFound | lib/cosmic.ts:27 | the not-found test holds exactly of a plain object whose `status` is the number 404 |
| Cosmic.Recover | lib/cosmic.ts:26-31 | the catch block: not-found gives the empty answer, anything else gives a status-less error with the operation's message |
| Cosmic.ListOperation | lib/cosmic.ts:97-110 | a list getter passes records through unchanged; it fails exactly on a non-404 store error, with its message and no status; a 404 gives `[]` |
| Cosmic.GetOperation | lib/cosmic.ts:112-125 | a get-by-slug getter returns the record; it fails exactly on a non-404 store error, with its message; a 404 gives `null` |
| Cosmic.FeaturedPosts | lib/cosmic.ts:34-48 | the store's featured posts arrive unchanged; a 404 gives `[]`; it fails exactly on a non-404 error, with "Failed to fetch featured posts" |
| Cosmic.PostBySlug | lib/cosmic.ts:50-64 | the post found; a 404 gives `null`; it fails exactly on a non-404 error, with "Failed to fetch post" |
| Cosmic.AllCategories | lib/cosmic.ts:97-110 | the categories unchanged; a 404 gives `[]`; it fails exactly on a non-404 error, with "Failed to fetch categories" |
| Cosmic.CategoryBySlug | lib/cosmic.ts:112-125 | the category found; a 404 gives `null`; it fails exactly on a non-404 error, with "Failed to fetch category" |
| Cosmic.AllAuthors | lib/cosmic.ts:127-140 | the authors unchanged; a 404 gives `[]`; it fails exactly on a non-404 error, with "Failed to fetch authors" |
| Cosmic.AuthorBySlug | lib/cosmic.ts:142-155 | the author found; a 404 gives `null`; it fails exactly on a non-404 error, with "Failed to fetch author" |
| Cosmic.AboutPage | lib/cosmic.ts:181-195 | the about page found; a 404 gives `null`; it fails exactly on a non-404 error, with "Failed to fetch about page" |
| Cosmic.PoweredByItems | lib/cosmic.ts:198-211 | the items unchanged; a 404 gives `[]`; it fails exactly on a non-404 error, with "Failed to fetch powered by items" |
| Cosmic.EffectiveDate | lib/cosmic.ts:22-23 | the sort key is `published_date` when the post has one, else `created_at` |
| Cosmic.InsertLast | lib/cosmic.ts:21-25 | placing one more post into a sorted list adds exactly one element |
| Cosmic.InsertLastPermutes | lib/cosmic.ts:21-25 | that placement adds exactly the new post to the multiset |
| Cosmic.InsertLastOrdered | lib/cosmic.ts:21-25 | placing a post into a newest-first list keeps it newest-first |
| Cosmic.InsertLastStable | lib/cosmic.ts:21-25 | the new post goes after every post of its own date |
| Cosmic.NewestFirst | lib/cosmic.ts:21-25 | the stable sort keeps the length |
| Cosmic.NewestFirstPermutes | lib/cosmic.ts:21-25 | the sort is a permutation of the fetched posts |
| Cosmic.NewestFirstIsOrdered | lib/cosmic.ts:21-25 | the sort is non-increasing by `published_date \|\| created_at` |
| Cosmic.NewestFirstStable | lib/cosmic.ts:21-25 | posts with the same effective date come out in store order, since the comparator returns 0 for them |
| Cosmic.InsertAt | lib/cosmic.ts:21-25 | one insertion step on the array leaves its first i+1 cells equal to the functional placement and the cells after them unchanged |
| Cosmic.SortNewestFirst | lib/cosmic.ts:21 | the in-place sort leaves the array equal to the stable newest-first order of its old contents |
| Cosmic.AllPosts | lib/cosmic.ts:11-32 | the result is a newest-first permutation of the store's posts; a 404 gives `[]`; any other failure gives a status-less "Failed to fetch posts" |
| Cosmic.GetAllPosts | lib/cosmic.ts:11-32 | sorting the fetched array in place returns exactly what the specification function says |
| Cosmic.InCategory | lib/cosmic.ts:70-72 | a post is in a category exactly when its categories are an array with an entry of that slug; a missing or non-array list is in none |
| Cosmic.ByAuthor | lib/cosmic.ts:86-87 | a post is by an author exactly when it has an author with that slug; a post without an author is by none |
| Cosmic.IsNot | lib/cosmic.ts:160 | the callback keeps exactly the posts whose id differs from the current one |
| Cosmic.FilterKeepsOrder | lib/cosmic.ts:69-73 | filtering a newest-first list keeps it newest-first |
| Cosmic.PostsByCategory | lib/cosmic.ts:66-80 | exactly the posts of `getAllPosts` with a category entry of that slug, in the same order; posts whose categories are missing or not an array are dropped; it fails only on a non-404 store error, and always with "Failed to fetch posts by category" |
| Cosmic.PostsByAuthor | lib/cosmic.ts:82-95 | exactly the posts of `getAllPosts` whose author has that slug, in the same order; it fails only on a non-404 store error, and always with "Failed to fetch posts by author" |
| Cosmic.NoPostsInCategory | lib/cosmic.ts:66-73 | a category no post is filed under lists `[]`, not an error |
| Cosmic.NoPostsByAuthor | lib/cosmic.ts:82-88 | an author with no post lists `[]`, not an error |
| Cosmic.RelatedPool | lib/cosmic.ts:160-172 | the pool holds only other posts from the list; it is the same-category subset when a slug is given and at least 2 other posts share it, and otherwise every other post; with no slug it is every other post; whenever it is not every other post, it holds at least 2 posts, all in the category |
| Cosmic.RelatedPoolKeepsOrder | lib/cosmic.ts:160-174 | the pool of a newest-first list, and its first three, are newest-first |
| Cosmic.GetRelatedPosts | lib/cosmic.ts:157-178 | the result is the first three of the pool over the newest-first posts; it never includes the current post and never has more than 3; any failure gives `[]` |
| Cosmic.ExampleNewestFirst | lib/cosmic.ts:21-25 | three posts stored oldest first come back newest first |
| Cosmic.ExampleCategory | lib/cosmic.ts:69-73 | a category listing of the three keeps its two posts, newest first |
| Cosmic.ExampleRelated | lib/cosmic.ts:160-174 | with only one other post in the category, the related posts fall back to every other post |
| Counting.Lookup | app/categories/page.tsx:35 | `counts[slug] \|\| 0`: the stored count, or 0 for a slug never counted |
| Counting.CountLabel | app/categories/page.tsx:58 | the label is "article" exactly when the count is 1, and "articles" otherwise |
| Counting.Increment | app/categories/page.tsx:21 | `counts[k] = (counts[k] \|\| 0) + 1` turns a tally of a multiset into a tally of that multiset plus one `k` |
| Counting.TotalOfTally | app/categories/page.tsx:16-24 | the values of a tally add up to the size of the multiset it tallies |
| CategoriesPage.CountEntries | app/categories/page.tsx:20-22 | the inner loop adds one under each entry's slug |
| CategoriesPage.CountPostsPerCategory | app/categories/page.tsx:16-24 | the dictionary tallies every (post, category entry) pair by slug; a post whose categories are missing or not an array adds nothing |
| CategoriesPage.EntrySlugsSize | app/categories/page.tsx:20-22 | one post adds as many counts as it has category entries |
| CategoriesPage.CategorySlugsSize | app/categories/page.tsx:16-24 | all pairs together number the total length of the posts' category arrays |
| CategoriesPage.CountsAddUp | app/categories/page.tsx:16-24 | the counts sum to the total length of all posts' category arrays |
| CategoriesPage.EntrySlugsHas | app/categories/page.tsx:20-21 | a slug is counted for an entry list exactly when some entry has it |
| CategoriesPage.PostSlugsHas | app/categories/page.tsx:18-21 | a post adds to a slug's count exactly when `getPostsByCategory` would list it there |
| CategoriesPage.CountCoversFiltered | app/categories/page.tsx:16-24 | a category's count is at least the number of posts the category filter lists, since a post repeating the slug counts twice |
| CategoriesPage.CountMatchesFiltered | app/categories/page.tsx:16-24 | when no post repeats the slug, the count equals the category filter's length |
| CategoriesPage.CountZeroIff | app/categories/page.tsx:35 | a category shows 0 exactly when no post is filed under it |
| CategoriesPage.CountZeroWhenUnfiled | app/categories/page.tsx:35 | posts outside the category add nothing to its count |
| CategoriesPage.CardColor | app/categories/page.tsx:36 | the colour is never empty: the category's own colour, else `#6B7280` |
| CategoriesPage.CardName | app/categories/page.tsx:50 | the name is the metadata name, or the title when the name is empty |
| CategoriesPage.Card | app/categories/page.tsx:34-59 | a card links to `/categories/<slug>` and shows the fallbacks, the description, the count and its label |
| CategoriesPage.CategoriesPage | app/categories/page.tsx:9-63 | one card per category, in store order, each counting that slug's (post, entry) pairs |
| AuthorsPage.CountPostsPerAuthor | app/authors/page.tsx:16-22 | the dictionary tallies the slug of each post's embedded author; a post without an author adds nothing |
| AuthorsPage.CountMatchesFiltered | app/authors/page.tsx:16-22 | an author's count equals the number of posts the author filter lists for that slug |
| AuthorsPage.AuthorSlugsSize | app/authors/page.tsx:17-21 | only posts with an author are counted, each once |
| AuthorsPage.CountsAddUp | app/authors/page.tsx:16-22 | the counts sum to the number of posts with an author |
| AuthorsPage.CardName | app/authors/page.tsx:58 | the name is the metadata name, or the title when the name is empty |
| AuthorsPage.Card | app/authors/page.tsx:32-61 | a card links to `/authors/<slug>` and shows the name, the count and its label |
| AuthorsPage.AuthorsPage | app/authors/page.tsx:9-64 | one card per author, in store order; each count is the number of that author's posts, so an author without posts shows 0 |
| HomePage.HeroPost | app/page.tsx:35 | the hero is the first featured post, else the first post; there is none only when both lists are empty |
| HomePage.RegularPosts | app/page.tsx:36 | the grid keeps exactly the posts whose id differs from the hero's; it is never longer than the list and never holds the hero's id |
| HomePage.RegularKeepsAll | app/page.tsx:35-36 | with no hero, or a hero whose id no listed post has, the grid is the whole list |
| HomePage.RegularDropsHero | app/page.tsx:36 | the hero's own record, before or after the rest, is removed and the rest keep their order |
| HomePage.Home | app/page.tsx:35-80 | a hero renders exactly when some post exists; no grid post has the hero's id; the empty message shows exactly when the grid is empty |
| HomePage.FirstBecomesHero | app/page.tsx:35-36 | with nothing featured, the first listed post is the hero and is left out of the grid; a single post shows as hero above the empty message |
| HomePage.NewestBecomesHero | app/page.tsx:29-35 | with nothing featured and the posts of `getAllPosts` listed, the hero is a fetched post and no fetched post is newer |
| Sitemap.SiteUrl | app/sitemap.ts:5 | the environment's address if non-empty, else `https://insightmagazine.com` |
| Sitemap.PostModified | app/sitemap.ts:45 | a post entry is dated `modified_at` when the post has one, else `created_at` |
| Sitemap.StaticPages | app/sitemap.ts:15-40 | four entries: the site address (daily, priority 1), `/about` (monthly, 0.8), `/categories` and `/authors` (weekly, 0.8), all dated at the request |
| Sitemap.PostEntry | app/sitemap.ts:43-48 | `<site>/posts/<slug>`, dated by the post, weekly, priority 0.9 |
| Sitemap.CategoryEntry | app/sitemap.ts:51-56 | `<site>/categories/<slug>`, dated at the request, weekly, priority 0.7 |
| Sitemap.AuthorEntry | app/sitemap.ts:59-64 | `<site>/authors/<slug>`, dated at the request, weekly, priority 0.7 |
| Sitemap.SitemapEntries | app/sitemap.ts:15-66 | `4 + posts + categories + authors` entries: the four static pages first (daily, monthly, weekly, weekly), then one per post (its `modified_at \|\| created_at`, weekly), category and author (weekly), each group in input order |
| Sitemap.UrlsUnderSite | app/sitemap.ts:43-66 | every address starts with the site address |
| Sitemap.IntendedPages | app/sitemap.ts:15-66 | the list of pages the sitemap is meant to cover, one per entry |
| Sitemap.SitemapRoundTrip | app/sitemap.ts:43-66 | each address routes back to the page it was built for: `/posts/<slug>`, `/categories/<slug>`, `/authors/<slug>` |
| Sitemap.IntendedPagesDistinct | app/sitemap.ts:43-64 | with slugs unique within each record type, all pages are different |
| Sitemap.SitemapUrlsDistinct | app/sitemap.ts:43-66 | with slugs unique within each record type, no address is listed twice |

Notes on the source:

- The props list of `getAllPosts` (lib/cosmic.ts:15) does not request `modified_at`. In the sitemap, `post.modified_at || post.created_at` (app/sitemap.ts:45) therefore falls back to `created_at` for every post. The model keeps `modifiedAt` as an optional field and states the fallback, so this behaviour is the case where the field is `None`.
- On the categories page a post that lists the same category twice counts twice (`CountCoversFiltered`). `getPostsByCategory` lists that post once. The two agree exactly when no post repeats a slug (`CountMatchesFiltered`).
- `getPostsByCategory` and `getPostsByAuthor` catch the error of `getAllPosts`, which never has a `status`. Their own 404 test therefore never fires on it. A store 404 has already become `[]` inside `getAllPosts`.

## Left out

- **The content store's client and query chains** (lib/cosmic.ts:4-9, and the `find`/`findOne`/`props`/`depth` calls): these are network calls. Each one is an input `Fetch` value, and the `is_featured` query (lib/cosmic.ts:37) is applied by the store.
- **Date parsing** (`new Date(...).getTime()`): dates are integer timestamps. An unparsable date, which would make the comparator return `NaN`, is not modelled.
- **`formatDate`** (types.ts:92-99): locale formatting is not modelled.
- **The sort algorithm:** the engine's own `sort` algorithm is not the repository's code. The model's insertion sort produces the unique stable newest-first order that `Array.prototype.sort` must produce.
- **`Promise.all`** in the pages: the fetches are independent, so each page takes the awaited lists as inputs. A rejected fetch on a page is not modelled, because the pages do not catch.
- **The counting dictionaries** are `Record<string, number>` plain objects. Keys inherited from `Object.prototype` (such as `constructor`) would read as non-numbers there; the model's map has no such keys.
- **Sitemap values:** priorities are floats in the source and are kept in tenths (1 is 10, 0.8 is 8). The `new Date()` of the static, category and author entries is `RequestTime`: the clock is not modelled.
- **JSX rendering, styling and the components** (`HeroSection`, `PostCard`, `AuthorCard`, `CategoryBadge`, `CategoryFilter`, `Header`, `Footer`, the about page, the layout, the Tailwind configuration): these are display only, apart from the reading time they show, which is `Types.PostReadingTime`. The page models keep what the pages compute (hero, grid, empty message, cards).
- **Page metadata and the home page's JSON-LD** (app/page.tsx:7-26, 39-52): constant strings.
- **Record fields the computed logic never reads** (a post's title and `is_featured`, excerpt, images, bio, avatar, email, the about-page and powered-by fields): not modelled. `AboutPage` and `PoweredByItems` take their record type as a parameter.
- **`categorySlug?`** in `getRelatedPosts`: an absent slug and `""` are both falsy, so both are `""` in the model.
