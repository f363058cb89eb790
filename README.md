# ProductProbe crawler core in Dafny

This project models the crawling core of ProductProbe, a crawler that finds the
product pages of e-commerce sites (`main.py`). For each domain it works as follows.

1. It locates the sitemap, trying the first `Sitemap:` line of `robots.txt` and then
   `/sitemap.xml` and `/sitemap`.
2. It expands the sitemap tree depth first. A set of sitemap URLs already seen
   stops cycles and repeats.
3. It splits the page URLs into chunks of ten.
4. It classifies each chunk, keeping the URLs that contain `/product/`, `/item/`,
   `/p/`, `/prod/` or `/products/`.
5. It appends the kept URLs to the crawler's per-domain results.

`save_results` merges the results into the stored record, as a per-domain set union.

The modules follow the program's structure:

- `Text` (`text.dfy`): the Python string operations the crawler relies on, over `seq<char>`.
  These are literal substring search, `lower`, `startswith`, `splitlines`,
  `split(": ", 1)` and `strip`.
- `Classifier` (`classifier.dfy`): `PRODUCT_PATTERNS` and the task `process_urls_chunk`.
- `Sequences` (`sequences.dfy`): general list facts shared by the other modules: concatenating a list of lists, and lists without repeated elements.
- `Chunking` (`chunking.dfy`): `chunk_domains`.
- `SitemapResolver` (`resolver.dfy`): `get_sitemap_url`.
- `SitemapTraversal` (`traversal.dfy`): `extract_urls_from_sitemap`.
  - The class `Traverser` holds the seen set, which the traversal updates in place.
  - The function `Traverse` is the specification that `Traverser.Extract` is proved against.
- `Crawler` (`crawler.dfy`): the class `EcommerceCrawler`.
  - Its fields are `domains`, a constant that holds the distinct domains (`Valid`), and `results`.
  - Its methods are the constructor, `CrawlDomain`, `Run` and `SaveResults`.
  - `Accumulated`, `AddPages`, `CrawlAll` and `Merged` are the specification functions these methods are proved against.

The network is a parameter.

- `texts: map<string, string>` holds the body of every URL that answers `200`.
  A URL that is absent stands for a failed fetch (an error, a timeout or another status).
- `docs: map<string, Doc>` holds the parsed sitemap document at every URL whose fetch
  gave a non-empty body. A document is one of the following:
  - a `sitemapindex`, with the `<loc>` of each `<sitemap>` entry;
  - a `urlset`, with the `<loc>` of each `<url>` entry;
  - an XML document with another root;
  - text that does not parse.

When the first line of a fetched, non-empty `robots.txt` that starts with `sitemap:`
(in any case) has no `": "`, `line.split(": ", 1)[1]` raises `IndexError`. Later
`sitemap:` lines are never looked at.

- The model keeps this as `Resolution.MissingSeparator`.
- `CrawlDomain` and `Run` report it as `failed`, the way the exception escapes `run()`.

## Model

| member | source | states |
|---|---|---|
| Text.ContainsIff | main.py:115 | A pattern search for a literal pattern succeeds exactly when the pattern occurs at some index of the URL. |
| Text.FindSpec | main.py:66 | `Find` gives the leftmost occurrence of the separator; it gives none exactly when the separator does not occur. |
| Text.AfterFirstSpec | main.py:66 | `split(sep, 1)[1]` is the text after the leftmost occurrence of `sep`; the IndexError case is exactly "`sep` does not occur". |
| Text.Lower | main.py:65 | Lower-casing keeps the length of the line. |
| Text.LineLength | main.py:64 | The first line ends at the first line-break character, or at the end of the text. |
| Text.SplitLines | main.py:64 | No line returned by `splitlines` contains a line break; an empty text has no lines, and a non-empty one has at least one. |
| Text.SplitLinesBreak | main.py:64 | A line ended by one break character that is not the `\r` of a `\r\n` is the first line of `splitlines`, and the lines of the rest follow it. |
| Text.SplitLinesCrLf | main.py:64 | A line ended by `\r\n` is the first line, and the lines of the rest follow it: the two characters count as one break. |
| Text.SplitLinesSingle | main.py:64 | A non-empty text with no line break is one line. |
| Text.SplitLinesJoin | main.py:64 | Joining the lines of `splitlines` back gives the text with its line-break characters removed. |
| Text.StripLeft | main.py:66 | `strip` on the left removes exactly the leading whitespace: a suffix remains, and it does not start with whitespace. |
| Text.StripRight | main.py:66 | `strip` on the right removes exactly the trailing whitespace: a prefix remains, and it does not end with whitespace. |
| Text.StripStripped | main.py:66 | A value with no whitespace at either end is returned unchanged. |
| Classifier.ProductUrls | main.py:115 | The filtered list is no longer than its input. |
| Classifier.ProductUrlsMembers | main.py:115 | A URL is kept if and only if it is in the chunk and matches one of the five product patterns. |
| Classifier.ProductUrlsOrdered | main.py:115 | The kept URLs are a subsequence of the chunk: the original order is preserved. |
| Classifier.ProductUrlsCounts | main.py:115 | Every occurrence of a product URL is kept (duplicates included), and no other URL is. |
| Classifier.ProductUrlsAppend | main.py:115 | Filtering a concatenation is concatenating the filtered parts, so splitting work into chunks does not change the result. |
| Classifier.ProcessUrlsChunk | main.py:110-116 | The task's reply has exactly one key, the domain it was given. |
| Classifier.ProcessUrlsChunkMembers | main.py:110-116 | The reply lists exactly the product URLs of the chunk. |
| Classifier.NotProductBySlashes | main.py:25-31 | An `https://` URL with a single further `/`, placed so that no pattern fits between two slashes, is not a product URL. |
| Classifier.ProductPath | main.py:26 | Any URL containing `/product/` is a product URL. |
| Classifier.ExampleAboutPage | tests/main_test.py:30 | `https://www.example.com/about` is not a product URL. |
| Classifier.SampleChunk | tests/main_test.py:26-33 | The test chunk (two `/product/` pages and an `/about` page) yields two URLs under the domain. |
| Chunking.Chunks | main.py:128-133 | The chunks concatenate back to the list; none is empty or longer than the size; all but the last have exactly the size. |
| Chunking.ChunksBound | main.py:132-133 | The number of chunks times the size is at least the length of the list, and less than the length plus the size. |
| Chunking.ChunksCount | main.py:132-133 | There are `ceil(len / size)` chunks. |
| SitemapResolver.FirstDirective | main.py:64-65 | The directive index found lies within the lines. |
| SitemapResolver.FirstDirectiveSpec | main.py:64-65 | The index found is a `sitemap:` line with no such line before it; none is found if and only if no line is a directive. |
| SitemapResolver.ProbeSpec | main.py:67-71 | Probing never fails with an IndexError. It finds nothing if and only if no candidate fetches a non-empty body. Otherwise it returns the first candidate that does. |
| SitemapResolver.ScanRobots | main.py:64-66 | The loop over the robots.txt lines returns the value of the first directive line, or nothing when there is none. |
| SitemapResolver.ProbeFallbacks | main.py:67-71 | The loop over the fallbacks returns the first one that fetches a non-empty body, or nothing. |
| SitemapResolver.GetSitemapUrl | main.py:55-71 | `get_sitemap_url` returns exactly what `Resolve` prescribes (robots.txt directive first, then the fallbacks in order). |
| SitemapResolver.FirstDirectiveWins | main.py:63-66 | When robots.txt was fetched and is non-empty, its first directive line alone decides the answer. |
| SitemapResolver.DirectiveSkipsProbes | main.py:63-70 | Once robots.txt gives an answer, the fallback locations are never consulted, and the answer is never "none". |
| SitemapResolver.FallbackOrder | main.py:67-71 | Without a directive: `/sitemap.xml` if it fetches, else `/sitemap` if it fetches, else none. |
| SitemapResolver.NoRobotsSecondFallback | main.py:61-70 | robots.txt and `/sitemap.xml` unreachable, `/sitemap` reachable: the answer is `/sitemap`. |
| SitemapResolver.DirectiveLine | main.py:64-65 | `Sitemap: <url>` on one line is one line and is a directive (the prefix test ignores case). |
| SitemapResolver.DirectiveLineValue | main.py:66 | The value of `Sitemap: <url>` is `<url>` when it has no surrounding whitespace. |
| SitemapResolver.SingleDirective | main.py:61-66 | A robots.txt consisting of `Sitemap: <url>` resolves to `<url>`. |
| SitemapTraversal.Locs | main.py:99-102 | The page URLs of a urlset are exactly the `<loc>` values of its entries, at most one per entry. |
| SitemapTraversal.Traverse | main.py:75-105 | The traversal only grows the seen set and always adds the URL it started from. |
| SitemapTraversal.EntryWalk | main.py:93-97 | Walking one index entry only grows the seen set. |
| SitemapTraversal.TraverseEntries | main.py:93-97 | Walking the entries of an index only grows the seen set. |
| SitemapTraversal.FetchedOnce | main.py:80-83 | No sitemap URL is fetched twice or fetched after it was seen. The URLs fetched are exactly those the seen set gains. |
| SitemapTraversal.EntriesFetchedOnce | main.py:92-97 | The same for the nested traversals of all the entries of an index. |
| SitemapTraversal.UrlsListed | main.py:92-102 | Every page URL returned is a `<loc>` of a urlset that the traversal fetched. |
| SitemapTraversal.EntriesUrlsListed | main.py:92-97 | The same for the entries of an index. |
| SitemapTraversal.UrlsComplete | main.py:92-102 | No page URL is lost: every `<loc>` of every urlset the traversal fetched is among the URLs returned. |
| SitemapTraversal.EntriesUrlsComplete | main.py:92-97 | The same for the entries of an index. |
| SitemapTraversal.UrlsExactly | main.py:75-105 | The URLs returned are exactly the `<loc>` values of the urlsets the traversal fetched. |
| SitemapTraversal.EntriesCover | main.py:93-96 | Walking an index's entries marks the `<loc>` of every entry as seen. |
| SitemapTraversal.TraverseClosed | main.py:80-97 | Every child of every index the traversal fetched is in the seen set afterwards: no index is left half expanded. |
| SitemapTraversal.EntriesClosed | main.py:93-97 | The same for the entries of an index. |
| SitemapTraversal.ChildrenFetched | main.py:80-97 | From an empty seen set, the root is fetched, and every child of every fetched index is fetched too. |
| SitemapTraversal.ReachableFetched | main.py:75-105 | Every sitemap reachable from the root through index entries is fetched. `FetchedOnce` adds that none is fetched twice. |
| SitemapTraversal.ReachableUrlsReturned | main.py:75-105 | Every `<loc>` of every urlset reachable from the root is among the URLs returned. |
| SitemapTraversal.FetchedReachable | main.py:75-105 | Only sitemaps reachable from the start through index entries are fetched: each fetched URL ends a path of index entries from the start. |
| SitemapTraversal.EntriesFetchedReachable | main.py:93-97 | Each URL fetched while walking an index's entries is reachable from one of those entries' `<loc>` values. |
| SitemapTraversal.UrlsOnlyReachable | main.py:75-105 | Every page URL returned is a `<loc>` of a urlset reachable from the root; with `ReachableUrlsReturned`, the URLs returned are exactly the leaf URLs reachable from the root. |
| SitemapTraversal.RevisitIsNoop | main.py:80-81 | Starting again from a sitemap already traversed yields nothing and changes nothing. |
| SitemapTraversal.MutualIndexes | main.py:80-97 | Two indexes that list each other are each fetched once, in order; the traversal ends with no page URLs. |
| SitemapTraversal.IndexOfTwoUrlSets | main.py:92-102 | An index over two urlsets returns the page URLs of both, in document order. |
| SitemapTraversal.CollectLocs | main.py:99-102 | The urlset loop collects exactly `Locs` of the entries. |
| SitemapTraversal.Traverser.constructor | main.py:143 | A traversal starts with an empty seen set. |
| SitemapTraversal.Traverser.Extract | main.py:75-105 | The traversal returns `Traverse`'s URLs. The new seen set is `Traverse`'s, and the fetch log grows by exactly `Traverse`'s fetches. |
| SitemapTraversal.Traverser.ExtractEntries | main.py:92-97 | The index loop returns `TraverseEntries`'s URLs, seen set and fetches. |
| SitemapTraversal.Traverser.ExtractEntry | main.py:94-97 | One `<sitemap>` entry: skipped when it has no `<loc>`, otherwise extracted. The result, the seen set and the fetch log equal `EntryWalk`. |
| Crawler.ToList | main.py:125 | `list(set(domains))` has no duplicates and has the same elements as the input. |
| Crawler.EcommerceCrawler.constructor | main.py:124-126 | The crawler's domains are the distinct input domains; `results` starts empty. |
| Crawler.AccumulatedAt | main.py:148-153 | Folding in the task replies appends, for each domain, exactly what the replies hold for it, in task order. A domain gains an entry only if a reply names it. |
| Crawler.AccumulatedKeeps | main.py:151-153 | Existing lists are only ever extended, never replaced. Domains that no reply names are untouched. |
| Crawler.ChunkTasks | main.py:144-147 | There is one task reply per chunk. |
| Crawler.ChunkTasksGather | main.py:144-153 | Together, the chunk replies hold the product URLs of all the chunks under the crawled domain and nothing under any other. |
| Crawler.ChunkTasksMentioned | main.py:144-153 | The replies name the crawled domain, and no other, exactly when there is at least one chunk. |
| Crawler.AddPagesAt | main.py:140-153 | A crawl appends the product URLs of its pages to its own domain only. |
| Crawler.DispatchClassifiesAll | main.py:143-153 | Chunking by ten, classifying each chunk and folding in the replies amounts to appending the product URLs of all the pages, in order. No entry is created when there are no pages. |
| Crawler.CrawlSampleSitemap | tests/main_test.py:14-24 | A sitemap with two product pages and an about page leaves two URLs for the domain. |
| Crawler.CrawlAllAt | main.py:163-167 | Crawling distinct domains in turn adds, for each domain, exactly its own product URLs. The result does not depend on the order of the domains. |
| Crawler.CrawlPrefixAt | main.py:144-153 | After the crawls of some of the distinct domains, each domain has either its old list or its old list plus all of its own product URLs; no other domain gains an entry. |
| Crawler.EcommerceCrawler.AddReply | main.py:150-153 | One reply is folded into `results` as `AddResult` prescribes. |
| Crawler.EcommerceCrawler.CollectResults | main.py:148-153 | The replies are folded into `results` in task order, as `Accumulated` prescribes. |
| Crawler.EcommerceCrawler.CrawlDomain | main.py:135-154 | The crawl fails exactly when the first `sitemap:` line of the domain's fetched, non-empty robots.txt has no `": "`, and then leaves `results` unchanged. Otherwise it appends the product URLs of the pages the sitemap yields. |
| Crawler.EcommerceCrawler.CrawlInTurn | main.py:163-167 | The domains are crawled in turn up to the first that fails (or all of them). None before it fails, and `results` is `CrawlAll` over the domains before it. |
| Crawler.EcommerceCrawler.Run | main.py:156-167 | The run fails exactly when, for some domain, the first `sitemap:` line of its fetched, non-empty robots.txt has no `": "`. Otherwise `results` is `CrawlAll` over the domains. After a failure, each domain has gained either all of its product URLs or none, and no other domain gains an entry. |
| Crawler.MergedAt | main.py:182-186 | Saving loses no stored URL. A crawled domain's stored set becomes the old set plus the new URLs. Other domains keep their entry. |
| Crawler.MergedIdempotent | main.py:182-186 | Saving the same results twice gives the same record as saving them once. |
| Crawler.SaveOneUrl | tests/main_test.py:35-45 | Saving one URL for one domain with no file yet stores that domain with one URL. |
| Crawler.MergeRecords | main.py:182-186 | The merge loop computes `Merged` of the loaded record and the results. |
| Crawler.EcommerceCrawler.SaveResults | main.py:169-186 | The record written is `Merged` of the record loaded (empty when the file is missing or not valid JSON) and `results`. |

## Left out

- Fetching (`fetch`, `aiohttp`, headers, timeouts, status codes, decoding the body) is not modelled; it is the `texts` and `docs` maps.
- XML parsing is not modelled; it is the `Doc` datatype. A `sitemapindex` or `urlset` lists only the namespaced `<sitemap>`/`<url>` entries that `findall` would return.
- The Celery broker and serialisation are not modelled: `process_urls_chunk.delay(...).get()` is the direct call `ProcessUrlsChunk`.
- Logging is not modelled.
- Crawler.EcommerceCrawler.Run: the domains are crawled one after the other rather than concurrently under `asyncio.gather`. When a crawl fails, the model stops after the domains before it, whereas `asyncio.run` cancels the other crawls at their next `await`. The accumulation loop at main.py:148-153 has no `await`, so either way each domain gains all of its product URLs or none, and that is what the contract states. Which domains finished before the failure is not modelled.
- SitemapResolver.Resolve: `urljoin(domain, path)` is modelled as `domain + path`. This agrees for a domain written as scheme and host with no trailing slash. A domain with a path or a trailing `/` differs.
- Text.Lower: only ASCII letters are lowered. For the prefix test against `sitemap:`, this agrees with Python's full Unicode `lower`. The only non-ASCII characters that lower to an ASCII letter are KELVIN SIGN (to `k`, which `sitemap:` does not contain) and LATIN CAPITAL LETTER I WITH DOT ABOVE. The latter lowers to `i` followed by a combining dot, which can never match `sitemap:`.
- SitemapTraversal.Doc: a `<loc>` element with no text is not modelled. Python would append `None` to the URLs, or recurse on `None`.
- Chunking.Chunks: requires a positive chunk size. The only call passes `10`. Python raises `ValueError` for `0` and yields no chunks for a negative size.
- Crawler.Merged: the stored record is a set per domain. The order of `list(set(...))` is not modelled. Nor are duplicates or order inside the lists of domains the save does not touch: Python writes those lists back as they were loaded.
- Crawler.EcommerceCrawler.SaveResults: reading and writing `results.json` is not modelled. The loaded record is a parameter, `None` when the file is missing or is not valid JSON. The written record is the result.
- Crawler.EcommerceCrawler.SaveResults: a results file that is valid JSON but not an object mapping domains to lists of strings is not modelled. Python passes such a file through unchanged when `results` is empty, or when the malformed values sit under domains that `results` does not name. It raises at main.py:183-186 when the top level is not an object and `results` is non-empty, or when the loop reaches a value that is not a list of hashable items.
- Python's recursion limit on deeply nested sitemap indexes is not modelled.
- The fetch results are assumed not to change during a run.
