/**
 * `EcommerceCrawler`: per domain, resolve the sitemap, traverse it, classify the
 * URLs found in chunks of ten, and append the product URLs to `results[domain]`;
 * `save_results` merges `results` into the stored record, per domain as a set union.
 *
 * The Celery round trip of a chunk (`process_urls_chunk.delay(...).get()`) is the
 * direct call `ProcessUrlsChunk`, and the domains are crawled one after the other.
 */
module Crawler {
  import opened Wrappers
  import opened Sequences
  import opened Classifier
  import opened Chunking
  import opened SitemapResolver
  import opened SitemapTraversal

  /** Product URLs found so far, per domain, in the order found. */
  type Results = map<string, seq<string>>

  /** The stored record: per domain, the set of product URLs. */
  type Record = map<string, set<string>>

  /** The chunk size `crawl_domain` passes to `chunk_domains`. */
  const ChunkSize: nat := 10

  /** `results.get(d, [])`. */
  function Lookup(results: Results, d: string): seq<string> {
    if d in results then results[d] else []
  }

  /** `list(set(xs))`: the distinct elements of a set, in an order Python leaves open. */
  method ToList(s: set<string>) returns (xs: seq<string>)
    ensures NoDuplicates(xs) && Elems(xs) == s
  {
    xs := [];
    var pending := s;
    while pending != {}
      invariant NoDuplicates(xs)
      invariant Elems(xs) !! pending && Elems(xs) + pending == s
      decreases pending
    {
      var x :| x in pending;
      NoDuplicatesAppend(xs, [x]);
      xs := xs + [x];
      pending := pending - {x};
    }
  }

  // ---- Result accumulation (the task-result loop of `crawl_domain`) ----

  /** One task result folded in: each of its domains' URLs appended to that domain's list. */
  function AddResult(results: Results, r: Results): Results {
    map d | d in results.Keys + r.Keys :: Lookup(results, d) + Lookup(r, d)
  }

  /** All task results folded in, in task order. */
  function Accumulated(results: Results, rs: seq<Results>): Results
    decreases |rs|
  {
    if rs == [] then results else AddResult(Accumulated(results, rs[..|rs| - 1]), rs[|rs| - 1])
  }

  /** What the task results `rs` hold for domain `d`, in task order. */
  function Gathered(rs: seq<Results>, d: string): seq<string>
    decreases |rs|
  {
    if rs == [] then [] else Gathered(rs[..|rs| - 1], d) + Lookup(rs[|rs| - 1], d)
  }

  /** `d` is a key of one of the task results. */
  predicate Mentioned(rs: seq<Results>, d: string)
    decreases |rs|
  {
    rs != [] && (Mentioned(rs[..|rs| - 1], d) || d in rs[|rs| - 1])
  }

  /** Two result maps with the same keys and the same lists are equal. */
  lemma ResultsEqual(a: Results, b: Results)
    requires a.Keys == b.Keys
    requires forall d :: Lookup(a, d) == Lookup(b, d)
    ensures a == b
  {
    forall d | d in a ensures a[d] == b[d] {
      assert Lookup(a, d) == Lookup(b, d);
    }
  }

  lemma AddResultAt(results: Results, r: Results, d: string)
    ensures d in AddResult(results, r) <==> d in results || d in r
    ensures Lookup(AddResult(results, r), d) == Lookup(results, d) + Lookup(r, d)
  {
  }

  /**
   * Folding in the task results appends, for every domain, exactly what the tasks
   * returned for it, in task order; a domain gains an entry only if a task names it.
   */
  lemma {:induction false} AccumulatedAt(results: Results, rs: seq<Results>, d: string)
    ensures d in Accumulated(results, rs) <==> d in results || Mentioned(rs, d)
    ensures Lookup(Accumulated(results, rs), d) == Lookup(results, d) + Gathered(rs, d)
    decreases |rs|
  {
    if rs != [] {
      var front := rs[..|rs| - 1];
      AccumulatedAt(results, front, d);
      AddResultAt(Accumulated(results, front), rs[|rs| - 1], d);
    }
  }

  /** Existing entries are only ever extended, and unmentioned domains are untouched. */
  lemma AccumulatedKeeps(results: Results, rs: seq<Results>, d: string)
    ensures d in results ==>
      d in Accumulated(results, rs) && results[d] <= Accumulated(results, rs)[d]
    ensures !Mentioned(rs, d) ==>
      (d in Accumulated(results, rs) <==> d in results) &&
      Lookup(Accumulated(results, rs), d) == Lookup(results, d)
  {
    AccumulatedAt(results, rs, d);
    if !Mentioned(rs, d) {
      GatheredUnmentioned(rs, d);
    }
  }

  lemma {:induction false} GatheredUnmentioned(rs: seq<Results>, d: string)
    requires !Mentioned(rs, d)
    ensures Gathered(rs, d) == []
    decreases |rs|
  {
    if rs != [] {
      GatheredUnmentioned(rs[..|rs| - 1], d);
    }
  }

  /** The replies of the chunk tasks of `domain`, in submission order. */
  function ChunkTasks(domain: string, chunks: seq<seq<string>>): (tasks: seq<Results>)
    ensures |tasks| == |chunks|
    decreases |chunks|
  {
    if chunks == [] then []
    else ChunkTasks(domain, chunks[..|chunks| - 1]) + [ProcessUrlsChunk(domain, chunks[|chunks| - 1])]
  }

  /** Classifying all the chunks is classifying all but the last, then the last. */
  lemma ClassifySnoc(chunks: seq<seq<string>>)
    requires chunks != []
    ensures ProductUrls(Flatten(chunks)) ==
      ProductUrls(Flatten(chunks[..|chunks| - 1])) + ProductUrls(chunks[|chunks| - 1])
  {
    var front, last := chunks[..|chunks| - 1], chunks[|chunks| - 1];
    assert Flatten(chunks) == Flatten(front) + last by {
      assert chunks == front + [last];
      FlattenSnoc(front, last);
    }
    ProductUrlsAppend(Flatten(front), last);
  }

  /** The replies to all the chunks but the last, then the reply to the last. */
  lemma ChunkTasksSnoc(domain: string, chunks: seq<seq<string>>)
    requires chunks != []
    ensures var tasks := ChunkTasks(domain, chunks);
      tasks[..|tasks| - 1] == ChunkTasks(domain, chunks[..|chunks| - 1]) &&
      tasks[|tasks| - 1] == ProcessUrlsChunk(domain, chunks[|chunks| - 1])
  {
  }

  /**
   * The chunk replies together hold, for `domain`, the product URLs of all the chunks,
   * and nothing for any other domain.
   */
  lemma {:induction false} ChunkTasksGather(domain: string, chunks: seq<seq<string>>, d: string)
    ensures Gathered(ChunkTasks(domain, chunks), d) ==
      if d == domain then ProductUrls(Flatten(chunks)) else []
    decreases |chunks|
  {
    if chunks != [] {
      var front, last := chunks[..|chunks| - 1], chunks[|chunks| - 1];
      var tasks := ChunkTasks(domain, chunks);
      ChunkTasksSnoc(domain, chunks);
      ChunkTasksGather(domain, front, d);
      assert Gathered(tasks, d) ==
        Gathered(ChunkTasks(domain, front), d) + Lookup(ProcessUrlsChunk(domain, last), d);
      ClassifySnoc(chunks);
    }
  }

  /** Every chunk reply names `domain` and no other domain. */
  lemma {:induction false} ChunkTasksMentioned(domain: string, chunks: seq<seq<string>>, d: string)
    ensures Mentioned(ChunkTasks(domain, chunks), d) <==> d == domain && chunks != []
    decreases |chunks|
  {
    if chunks != [] {
      ChunkTasksSnoc(domain, chunks);
      ChunkTasksMentioned(domain, chunks[..|chunks| - 1], d);
    }
  }

  /**
   * The product URLs of `pages` appended to `results[domain]`; no entry is made
   * when there are no pages.
   */
  function AddPages(results: Results, domain: string, pages: seq<string>): Results {
    if pages == [] then results
    else results[domain := Lookup(results, domain) + ProductUrls(pages)]
  }

  lemma AddPagesAt(results: Results, domain: string, pages: seq<string>, d: string)
    ensures d in AddPages(results, domain, pages) <==> d in results || (d == domain && pages != [])
    ensures Lookup(AddPages(results, domain, pages), d) ==
      Lookup(results, d) + (if d == domain then ProductUrls(pages) else [])
  {
  }

  /**
   * Dispatching the chunks of `pages` and folding in the replies appends the product
   * URLs of `pages`, in order, to `results[domain]`: classifying chunk by chunk is
   * classifying the whole list, and a crawl that found no page makes no entry.
   */
  lemma DispatchClassifiesAll(results: Results, domain: string, pages: seq<string>)
    ensures Accumulated(results, ChunkTasks(domain, Chunks(pages, ChunkSize))) ==
      AddPages(results, domain, pages)
  {
    var chunks := Chunks(pages, ChunkSize);
    var got := Accumulated(results, ChunkTasks(domain, chunks));
    var want := AddPages(results, domain, pages);
    assert chunks == [] <==> pages == [];
    forall d ensures (d in got <==> d in want) && Lookup(got, d) == Lookup(want, d) {
      AccumulatedAt(results, ChunkTasks(domain, chunks), d);
      ChunkTasksGather(domain, chunks, d);
      ChunkTasksMentioned(domain, chunks, d);
      AddPagesAt(results, domain, pages, d);
    }
    ResultsEqual(got, want);
  }

  /**
   * The unit test of `crawl_domain`: a sitemap listing two product pages and an
   * "about" page leaves two URLs for the domain.
   */
  lemma CrawlSampleSitemap()
    ensures var pages := ["https://www.example.com/product/item1",
                          "https://www.example.com/product/item2",
                          "https://www.example.com/about"];
      var r := Accumulated(map[], ChunkTasks("https://www.example.com", Chunks(pages, ChunkSize)));
      "https://www.example.com" in r && |r["https://www.example.com"]| == 2
  {
    var pages := ["https://www.example.com/product/item1",
                  "https://www.example.com/product/item2",
                  "https://www.example.com/about"];
    DispatchClassifiesAll(map[], "https://www.example.com", pages);
    SampleChunk();
  }

  // ---- Crawling a domain ----

  /**
   * `all_urls` of `crawl_domain`: the traversal from the resolved sitemap, or nothing
   * when no sitemap URL (or an empty one) was found.
   */
  function SitemapPages(domain: string, texts: map<string, string>, docs: Docs): seq<string> {
    match Resolve(domain, texts)
    case Found(u) => if u != "" then Traverse(docs, u, {}).urls else []
    case MissingSeparator(_) => []
    case NotFound => []
  }

  /** What the crawl of each domain finds, as one function of the domain. */
  function PagesOf(texts: map<string, string>, docs: Docs): string -> seq<string> {
    d => SitemapPages(d, texts, docs)
  }

  /** `results` after crawling the domains `ds` in turn, none of them failing. */
  function CrawlAll(results: Results, ds: seq<string>, pagesOf: string -> seq<string>): Results
    decreases |ds|
  {
    if ds == [] then results
    else
      var d := ds[|ds| - 1];
      AddPages(CrawlAll(results, ds[..|ds| - 1], pagesOf), d, pagesOf(d))
  }

  /** In a list without duplicates the last domain is not among the others. */
  lemma LastDomain(ds: seq<string>)
    requires NoDuplicates(ds) && ds != []
    ensures var front, last := ds[..|ds| - 1], ds[|ds| - 1];
      NoDuplicates(front) && last !in front && forall d :: d in ds <==> d in front || d == last
  {
    var front, last := ds[..|ds| - 1], ds[|ds| - 1];
    assert ds == front + [last];
    NoDuplicatesSplit(front, [last]);
  }

  /**
   * Each domain's entry gains exactly its own product URLs, whatever the order of the
   * domains: crawls of distinct domains do not interfere.
   */
  lemma {:induction false} CrawlAllAt(results: Results, ds: seq<string>,
                                      pagesOf: string -> seq<string>, d: string)
    requires NoDuplicates(ds)
    ensures d in CrawlAll(results, ds, pagesOf) <==> d in results || (d in ds && pagesOf(d) != [])
    ensures Lookup(CrawlAll(results, ds, pagesOf), d) ==
      Lookup(results, d) + (if d in ds then ProductUrls(pagesOf(d)) else [])
    decreases |ds|
  {
    if ds != [] {
      var front, last := ds[..|ds| - 1], ds[|ds| - 1];
      LastDomain(ds);
      CrawlAllAt(results, front, pagesOf, d);
      AddPagesAt(CrawlAll(results, front, pagesOf), last, pagesOf(last), d);
    }
  }

  /**
   * Going from `before` to `after`, each domain has gained either all of its product
   * URLs or none of them, and only the domains `ds` may have gained an entry.
   */
  ghost predicate AllOrNothing(before: Results, after: Results, ds: seq<string>,
                         pagesOf: string -> seq<string>) {
    forall d ::
      (d in after ==> d in before || d in ds) &&
      (Lookup(after, d) == Lookup(before, d) ||
       (d in ds && Lookup(after, d) == Lookup(before, d) + ProductUrls(pagesOf(d))))
  }

  /** The crawls of any prefix of distinct domains are all-or-nothing for every domain. */
  lemma CrawlPrefixAt(results: Results, ds: seq<string>, k: nat, pagesOf: string -> seq<string>)
    requires NoDuplicates(ds) && k <= |ds|
    ensures AllOrNothing(results, CrawlAll(results, ds[..k], pagesOf), ds, pagesOf)
  {
    assert ds == ds[..k] + ds[k..];
    NoDuplicatesSplit(ds[..k], ds[k..]);
    forall d ensures
      var r := CrawlAll(results, ds[..k], pagesOf);
      (d in r ==> d in results || d in ds) &&
      (Lookup(r, d) == Lookup(results, d) ||
       (d in ds && Lookup(r, d) == Lookup(results, d) + ProductUrls(pagesOf(d))))
    {
      CrawlAllAt(results, ds[..k], pagesOf, d);
    }
  }

  /** The stored record after `save_results`: per domain, the union of old and new URLs. */
  function Merged(existing: Record, results: Results): Record {
    map d | d in existing.Keys + results.Keys ::
      (if d in existing then existing[d] else {}) + Elems(Lookup(results, d))
  }

  /**
   * Saving never loses a stored URL, adds exactly the URLs found for each domain
   * crawled, and leaves every other domain's entry as it was.
   */
  lemma MergedAt(existing: Record, results: Results, d: string)
    ensures d in Merged(existing, results) <==> d in existing || d in results
    ensures d in existing ==> existing[d] <= Merged(existing, results)[d]
    ensures d in results ==> forall u :: u in Merged(existing, results)[d] <==>
      (d in existing && u in existing[d]) || u in results[d]
    ensures d in existing && d !in results ==> Merged(existing, results)[d] == existing[d]
  {
  }

  /** Saving the same results a second time changes nothing. */
  lemma MergedIdempotent(existing: Record, results: Results)
    ensures Merged(Merged(existing, results), results) == Merged(existing, results)
  {
    var once := Merged(existing, results);
    var twice := Merged(once, results);
    forall d | d in twice ensures d in once && twice[d] == once[d] {
      assert twice[d] == once[d] + Elems(Lookup(results, d));
    }
    assert twice.Keys == once.Keys;
  }

  /** The unit test of `save_results`: one URL for one domain, no file yet. */
  lemma SaveOneUrl()
    ensures var saved := Merged(map[], map["https://www.example.com" := ["https://www.example.com/product/item1"]]);
      "https://www.example.com" in saved && |saved["https://www.example.com"]| == 1
  {
    var d, u := "https://www.example.com", "https://www.example.com/product/item1";
    var saved := Merged(map[], map[d := [u]]);
    assert Elems([u]) == {u};
    assert saved[d] == {u};
  }

  /** The entries of `m` under the keys `keys`. */
  function Restrict<V>(m: map<string, V>, keys: set<string>): map<string, V> {
    map k | k in m && k in keys :: m[k]
  }

  lemma AddResultNone(before: Results)
    ensures AddResult(before, map[]) == before
  {
    forall k ensures (k in AddResult(before, map[]) <==> k in before) &&
      Lookup(AddResult(before, map[]), k) == Lookup(before, k) {
      AddResultAt(before, map[], k);
    }
    ResultsEqual(AddResult(before, map[]), before);
  }

  lemma MergedNone(existing: Record)
    ensures Merged(existing, map[]) == existing
  {
    forall k | k in Merged(existing, map[]) ensures k in existing && Merged(existing, map[])[k] == existing[k] {
      MergedAt(existing, map[], k);
    }
  }

  lemma RestrictAll<V>(m: map<string, V>)
    ensures Restrict(m, m.Keys) == m && Restrict(m, {}) == map[]
  {
  }

  /** Folding in one more domain of a reply, the way `crawl_domain` does it. */
  lemma AddResultStep(before: Results, reply: Results, done: set<string>, d: string)
    requires d in reply && d !in done
    ensures var cur := AddResult(before, Restrict(reply, done));
      AddResult(before, Restrict(reply, done + {d})) == cur[d := Lookup(cur, d) + reply[d]]
  {
    var cur := AddResult(before, Restrict(reply, done));
    var next := AddResult(before, Restrict(reply, done + {d}));
    var want := cur[d := Lookup(cur, d) + reply[d]];
    forall k ensures (k in next <==> k in want) && Lookup(next, k) == Lookup(want, k) {
      AddResultAt(before, Restrict(reply, done), k);
      AddResultAt(before, Restrict(reply, done + {d}), k);
    }
    ResultsEqual(next, want);
  }

  /** Merging one more domain into the stored record, the way `save_results` does it. */
  lemma MergedStep(existing: Record, results: Results, done: set<string>, d: string)
    requires d in results && d !in done
    ensures var cur := Merged(existing, Restrict(results, done));
      Merged(existing, Restrict(results, done + {d})) ==
        cur[d := (if d in cur then cur[d] else {}) + Elems(results[d])]
  {
    var cur := Merged(existing, Restrict(results, done));
    var next := Merged(existing, Restrict(results, done + {d}));
    var want := cur[d := (if d in cur then cur[d] else {}) + Elems(results[d])];
    forall k | k in next ensures k in want && next[k] == want[k] {
      MergedAt(existing, Restrict(results, done), k);
    }
    assert next.Keys == want.Keys;
  }

  /** The merge loop of `save_results`: each domain's URLs added to its stored set. */
  method MergeRecords(existing: Record, found: Results) returns (saved: Record)
    ensures saved == Merged(existing, found)
  {
    saved := existing;
    RestrictAll(found);
    MergedNone(existing);
    var pending := found.Keys;
    ghost var done: set<string> := {};
    while pending != {}
      invariant done !! pending && done + pending == found.Keys
      invariant saved == Merged(existing, Restrict(found, done))
      decreases pending
    {
      var d :| d in pending;
      MergedStep(existing, found, done, d);
      var stored := if d in saved then saved[d] else {};
      saved := saved[d := stored + Elems(found[d])];
      pending := pending - {d};
      done := done + {d};
    }
  }

  class EcommerceCrawler {
    const domains: seq<string>
    var results: Results

    /** What `__init__` establishes and nothing changes afterwards: the domains are distinct. */
    predicate Valid() {
      NoDuplicates(domains)
    }

    /** The distinct input domains, with no entry in `results` yet. */
    constructor(domains: seq<string>)
      ensures Valid() && Elems(this.domains) == Elems(domains)
      ensures results == map[]
    {
      var distinct := ToList(set d | d in domains);
      this.domains := distinct;
      results := map[];
    }

    /** One reply folded in: its URLs appended under each of its domains. */
    method AddReply(reply: Results)
      modifies this`results
      ensures results == AddResult(old(results), reply)
    {
      ghost var before := results;
      RestrictAll(reply);
      AddResultNone(before);
      var pending := reply.Keys;
      ghost var done: set<string> := {};
      while pending != {}
        invariant done !! pending && done + pending == reply.Keys
        invariant results == AddResult(before, Restrict(reply, done))
        decreases pending
      {
        var d :| d in pending;
        AddResultStep(before, reply, done, d);
        if d !in results {
          results := results[d := []];
        }
        results := results[d := results[d] + reply[d]];
        pending := pending - {d};
        done := done + {d};
      }
    }

    /** The loop over the task results, in task order. */
    method CollectResults(tasks: seq<Results>)
      modifies this`results
      ensures results == Accumulated(old(results), tasks)
    {
      var i := 0;
      while i < |tasks|
        invariant 0 <= i <= |tasks|
        invariant results == Accumulated(old(results), tasks[..i])
      {
        AddReply(tasks[i]);
        assert tasks[..i + 1][..i] == tasks[..i];
        i := i + 1;
      }
      assert tasks[..i] == tasks;
    }

    /**
     * `crawl_domain`. `failed` is the IndexError raised when the first "sitemap:" line
     * of the domain's fetched, non-empty robots.txt has no ": "; it escapes the crawl
     * and leaves `results` as it was.
     */
    method CrawlDomain(domain: string, texts: map<string, string>, docs: Docs) returns (failed: bool)
      modifies this`results
      ensures failed <==> Resolve(domain, texts).MissingSeparator?
      ensures results == if failed then old(results)
        else AddPages(old(results), domain, SitemapPages(domain, texts, docs))
    {
      var sitemapUrl := GetSitemapUrl(domain, texts);
      if sitemapUrl.MissingSeparator? {
        return true;
      }
      if sitemapUrl.Found? && sitemapUrl.url != "" {
        var traverser := new Traverser(docs);
        var allUrls := traverser.Extract(sitemapUrl.url);
        var chunks := Chunks(allUrls, ChunkSize);
        var tasks: seq<Results> := [];
        var i := 0;
        while i < |chunks|
          invariant 0 <= i <= |chunks|
          invariant tasks == ChunkTasks(domain, chunks[..i])
        {
          assert chunks[..i + 1][..i] == chunks[..i];
          tasks := tasks + [ProcessUrlsChunk(domain, chunks[i])];
          i := i + 1;
        }
        assert chunks[..i] == chunks;
        CollectResults(tasks);
        DispatchClassifiesAll(old(results), domain, allUrls);
      }
      return false;
    }

    /**
     * The domains crawled in turn until one fails: `stopped` is the index of the
     * failing domain, or `|domains|` when none fails.
     */
    method CrawlInTurn(texts: map<string, string>, docs: Docs) returns (stopped: nat)
      modifies this`results
      ensures stopped <= |domains|
      ensures forall j :: 0 <= j < stopped ==> !Resolve(domains[j], texts).MissingSeparator?
      ensures stopped < |domains| ==> Resolve(domains[stopped], texts).MissingSeparator?
      ensures results == CrawlAll(old(results), domains[..stopped], PagesOf(texts, docs))
    {
      stopped := 0;
      while stopped < |domains|
        invariant stopped <= |domains|
        invariant forall j :: 0 <= j < stopped ==> !Resolve(domains[j], texts).MissingSeparator?
        invariant results == CrawlAll(old(results), domains[..stopped], PagesOf(texts, docs))
      {
        var failed := CrawlDomain(domains[stopped], texts, docs);
        if failed {
          return;
        }
        assert domains[..stopped + 1][..stopped] == domains[..stopped];
        stopped := stopped + 1;
      }
    }

    /**
     * `run`. `failed` when, for some domain, the first "sitemap:" line of its fetched,
     * non-empty robots.txt has no ": "; the exception ends the run, and each domain has
     * then gained either all of its product URLs or none of them.
     */
    method Run(texts: map<string, string>, docs: Docs) returns (failed: bool)
      requires Valid()
      modifies this`results
      ensures failed <==> exists i :: 0 <= i < |domains| && Resolve(domains[i], texts).MissingSeparator?
      ensures !failed ==> results == CrawlAll(old(results), domains, PagesOf(texts, docs))
      ensures failed ==> AllOrNothing(old(results), results, domains, PagesOf(texts, docs))
    {
      var stopped := CrawlInTurn(texts, docs);
      failed := stopped < |domains|;
      if failed {
        CrawlPrefixAt(old(results), domains, stopped, PagesOf(texts, docs));
      } else {
        assert domains[..stopped] == domains;
      }
    }

    /**
     * `save_results`: `loaded` is the record read from the results file (None when the
     * file is missing or is not valid JSON); `saved` is the record written back.
     */
    method SaveResults(loaded: Option<Record>) returns (saved: Record)
      ensures saved == Merged(loaded.GetOr(map[]), results)
    {
      saved := MergeRecords(loaded.GetOr(map[]), results);
    }
  }
}
