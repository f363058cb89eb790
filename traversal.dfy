/**
 * `extract_urls_from_sitemap`: depth-first expansion of a sitemap tree in the
 * sitemaps.org 0.9 format, with a set of sitemap URLs already seen that stops
 * cycles and duplicates.
 *
 * Fetching and XML parsing are the map `docs`: the parsed document at each URL.
 * A URL that is absent stands for a fetch that failed or returned an empty body.
 */
module SitemapTraversal {
  import opened Wrappers
  import opened Sequences

  /**
   * A fetched sitemap document: a `sitemapindex` or a `urlset` with, per `<sitemap>`
   * or `<url>` entry, the text of its `<loc>` (None when the entry has no `<loc>`);
   * a document whose root is anything else; or one that does not parse.
   */
  datatype Doc =
    | Index(entries: seq<Option<string>>)
    | UrlSet(entries: seq<Option<string>>)
    | Other
    | Malformed

  type Docs = map<string, Doc>

  /**
   * The outcome of a traversal: the page URLs found, the seen set afterwards, and
   * the sitemap URLs fetched, in the order they were fetched.
   */
  datatype Walk = Walk(urls: seq<string>, seen: set<string>, fetched: seq<string>)

  /** The `<loc>` values of the entries that have one, in document order. */
  function Locs(entries: seq<Option<string>>): (locs: seq<string>)
    ensures |locs| <= |entries|
    ensures forall u :: u in locs <==> Some(u) in entries
    decreases |entries|
  {
    if entries == [] then []
    else
      assert entries == [entries[0]] + entries[1..];
      match entries[0]
      case Some(u) => [u] + Locs(entries[1..])
      case None => Locs(entries[1..])
  }

  /** The traversal from `url`, given the sitemap URLs seen so far. */
  function Traverse(docs: Docs, url: string, seen: set<string>): (w: Walk)
    ensures seen <= w.seen && url in w.seen
    decreases docs.Keys - seen, 0, 0
  {
    if url in seen then Walk([], seen, [])
    else
      var seen' := seen + {url};
      if url !in docs then Walk([], seen', [url])
      else match docs[url]
        case Index(entries) =>
          var w := TraverseEntries(docs, entries, seen');
          Walk(w.urls, w.seen, [url] + w.fetched)
        case UrlSet(entries) => Walk(Locs(entries), seen', [url])
        case Other => Walk([], seen', [url])
        case Malformed => Walk([], seen', [url])
  }

  /** One entry of an index: nothing without a `<loc>`, else the traversal from it. */
  function EntryWalk(docs: Docs, entry: Option<string>, seen: set<string>): (w: Walk)
    ensures seen <= w.seen
    decreases docs.Keys - seen, 0, 1
  {
    match entry
    case None => Walk([], seen, [])
    case Some(u) => Traverse(docs, u, seen)
  }

  /** The entries of an index, one after the other, each with the seen set the last left. */
  function TraverseEntries(docs: Docs, entries: seq<Option<string>>, seen: set<string>): (w: Walk)
    ensures seen <= w.seen
    decreases docs.Keys - seen, |entries|, 2
  {
    if entries == [] then Walk([], seen, [])
    else
      var first := EntryWalk(docs, entries[0], seen);
      var rest := TraverseEntries(docs, entries[1..], first.seen);
      Walk(first.urls + rest.urls, rest.seen, first.fetched + rest.fetched)
  }

  /**
   * Each sitemap URL is fetched at most once: the fetches never repeat, never touch a
   * URL that was already seen, and are exactly the URLs the traversal adds to the seen set.
   */
  lemma {:induction false} FetchedOnce(docs: Docs, url: string, seen: set<string>)
    ensures var w := Traverse(docs, url, seen);
      NoDuplicates(w.fetched) && Elems(w.fetched) !! seen && w.seen == seen + Elems(w.fetched)
    decreases docs.Keys - seen, 0, 0
  {
    if url !in seen && url in docs && docs[url].Index? {
      var seen' := seen + {url};
      var w := TraverseEntries(docs, docs[url].entries, seen');
      EntriesFetchedOnce(docs, docs[url].entries, seen');
      NoDuplicatesAppend([url], w.fetched);
      assert Elems([url] + w.fetched) == {url} + Elems(w.fetched);
    } else if url !in seen {
      assert Elems([url]) == {url};
    }
  }

  lemma {:induction false} EntriesFetchedOnce(docs: Docs, entries: seq<Option<string>>, seen: set<string>)
    ensures var w := TraverseEntries(docs, entries, seen);
      NoDuplicates(w.fetched) && Elems(w.fetched) !! seen && w.seen == seen + Elems(w.fetched)
    decreases docs.Keys - seen, |entries|, 2
  {
    if entries != [] {
      var first := EntryWalk(docs, entries[0], seen);
      if entries[0].Some? {
        FetchedOnce(docs, entries[0].value, seen);
      }
      EntriesFetchedOnce(docs, entries[1..], first.seen);
      var rest := TraverseEntries(docs, entries[1..], first.seen);
      NoDuplicatesAppend(first.fetched, rest.fetched);
      assert Elems(first.fetched + rest.fetched) == Elems(first.fetched) + Elems(rest.fetched);
    }
  }

  /** `u` is the `<loc>` of an entry of the urlset fetched from `d`. */
  predicate ListedIn(docs: Docs, d: string, u: string) {
    d in docs && docs[d].UrlSet? && Some(u) in docs[d].entries
  }

  /** Every page URL of `w` is listed in a urlset that `w` fetched. */
  predicate AllListed(docs: Docs, w: Walk) {
    forall u :: u in w.urls ==> exists d :: d in w.fetched && ListedIn(docs, d, u)
  }

  /** Every page URL found is listed in a urlset that the traversal fetched. */
  lemma {:induction false} UrlsListed(docs: Docs, url: string, seen: set<string>)
    ensures AllListed(docs, Traverse(docs, url, seen))
    decreases docs.Keys - seen, 0, 0
  {
    if url !in seen && url in docs {
      match docs[url]
      case Index(entries) =>
        EntriesUrlsListed(docs, entries, seen + {url});
        var w := TraverseEntries(docs, entries, seen + {url});
        assert AllListed(docs, w);
        forall u | u in w.urls ensures exists d :: d in [url] + w.fetched && ListedIn(docs, d, u) {
          var d :| d in w.fetched && ListedIn(docs, d, u);
          assert d in [url] + w.fetched;
        }
      case UrlSet(entries) =>
        assert forall u :: u in Locs(entries) ==> ListedIn(docs, url, u);
      case Other =>
      case Malformed =>
    }
  }

  lemma {:induction false} EntriesUrlsListed(docs: Docs, entries: seq<Option<string>>, seen: set<string>)
    ensures AllListed(docs, TraverseEntries(docs, entries, seen))
    decreases docs.Keys - seen, |entries|, 2
  {
    if entries != [] {
      var first := EntryWalk(docs, entries[0], seen);
      if entries[0].Some? {
        UrlsListed(docs, entries[0].value, seen);
      }
      assert AllListed(docs, first);
      EntriesUrlsListed(docs, entries[1..], first.seen);
      var rest := TraverseEntries(docs, entries[1..], first.seen);
      assert AllListed(docs, rest);
      forall u | u in first.urls + rest.urls
        ensures exists d :: d in first.fetched + rest.fetched && ListedIn(docs, d, u)
      {
        if u in first.urls {
          var d :| d in first.fetched && ListedIn(docs, d, u);
          assert d in first.fetched + rest.fetched;
        } else {
          var d :| d in rest.fetched && ListedIn(docs, d, u);
          assert d in first.fetched + rest.fetched;
        }
      }
    }
  }

  /** Every `<loc>` of every urlset that `w` fetched is among the page URLs of `w`. */
  ghost predicate AllReturned(docs: Docs, w: Walk) {
    forall d, u :: d in w.fetched && ListedIn(docs, d, u) ==> u in w.urls
  }

  /** No page URL is lost: every `<loc>` of every urlset the traversal fetched comes back. */
  lemma {:induction false} UrlsComplete(docs: Docs, url: string, seen: set<string>)
    ensures AllReturned(docs, Traverse(docs, url, seen))
    decreases docs.Keys - seen, 0, 0
  {
    if url !in seen && url in docs {
      match docs[url]
      case Index(entries) =>
        EntriesUrlsComplete(docs, entries, seen + {url});
        var w := TraverseEntries(docs, entries, seen + {url});
        forall d, u | d in [url] + w.fetched && ListedIn(docs, d, u) ensures u in w.urls {
          assert d != url;
        }
      case UrlSet(entries) =>
      case Other =>
      case Malformed =>
    }
  }

  lemma {:induction false} EntriesUrlsComplete(docs: Docs, entries: seq<Option<string>>, seen: set<string>)
    ensures AllReturned(docs, TraverseEntries(docs, entries, seen))
    decreases docs.Keys - seen, |entries|, 2
  {
    if entries != [] {
      var first := EntryWalk(docs, entries[0], seen);
      if entries[0].Some? {
        UrlsComplete(docs, entries[0].value, seen);
      }
      assert AllReturned(docs, first);
      EntriesUrlsComplete(docs, entries[1..], first.seen);
      var rest := TraverseEntries(docs, entries[1..], first.seen);
      forall d, u | d in first.fetched + rest.fetched && ListedIn(docs, d, u)
        ensures u in first.urls + rest.urls
      {
        if d in first.fetched {
          assert u in first.urls;
        } else {
          assert u in rest.urls;
        }
      }
    }
  }

  /** The page URLs found are exactly the `<loc>` values of the urlsets the traversal fetched. */
  lemma UrlsExactly(docs: Docs, url: string, seen: set<string>)
    ensures var w := Traverse(docs, url, seen);
      forall u :: u in w.urls <==> exists d :: d in w.fetched && ListedIn(docs, d, u)
  {
    UrlsListed(docs, url, seen);
    UrlsComplete(docs, url, seen);
  }

  /** `u` is the `<loc>` of a `<sitemap>` entry of the index fetched from `d`. */
  predicate ChildOf(docs: Docs, d: string, u: string) {
    d in docs && docs[d].Index? && Some(u) in docs[d].entries
  }

  /** Every child of every index that `w` fetched is in the seen set of `w`. */
  ghost predicate ChildrenSeen(docs: Docs, w: Walk) {
    forall d, u :: d in w.fetched && ChildOf(docs, d, u) ==> u in w.seen
  }

  /** Every `<loc>` of an index's entries is seen once the entries are walked. */
  lemma {:induction false} EntriesCover(docs: Docs, entries: seq<Option<string>>, seen: set<string>, u: string)
    requires Some(u) in entries
    ensures u in TraverseEntries(docs, entries, seen).seen
    decreases |entries|
  {
    var first := EntryWalk(docs, entries[0], seen);
    if entries[0] != Some(u) {
      assert Some(u) in entries[1..];
      EntriesCover(docs, entries[1..], first.seen, u);
    }
  }

  /** No index is left half expanded: each child of a fetched index is seen. */
  lemma {:induction false} TraverseClosed(docs: Docs, url: string, seen: set<string>)
    ensures ChildrenSeen(docs, Traverse(docs, url, seen))
    decreases docs.Keys - seen, 0, 0
  {
    if url !in seen && url in docs && docs[url].Index? {
      var entries := docs[url].entries;
      var w := TraverseEntries(docs, entries, seen + {url});
      EntriesClosed(docs, entries, seen + {url});
      forall d, u | d in [url] + w.fetched && ChildOf(docs, d, u) ensures u in w.seen {
        if d == url {
          EntriesCover(docs, entries, seen + {url}, u);
        }
      }
    }
  }

  lemma {:induction false} EntriesClosed(docs: Docs, entries: seq<Option<string>>, seen: set<string>)
    ensures ChildrenSeen(docs, TraverseEntries(docs, entries, seen))
    decreases docs.Keys - seen, |entries|, 2
  {
    if entries != [] {
      var first := EntryWalk(docs, entries[0], seen);
      if entries[0].Some? {
        TraverseClosed(docs, entries[0].value, seen);
      }
      assert ChildrenSeen(docs, first);
      EntriesClosed(docs, entries[1..], first.seen);
      var rest := TraverseEntries(docs, entries[1..], first.seen);
      forall d, u | d in first.fetched + rest.fetched && ChildOf(docs, d, u)
        ensures u in rest.seen
      {
        if d in first.fetched {
          assert u in first.seen;
        }
      }
    }
  }

  /**
   * From an empty seen set the root is fetched, and so is every child of every
   * index fetched: the fetched set is closed under the index-to-child relation.
   */
  lemma ChildrenFetched(docs: Docs, root: string)
    ensures var w := Traverse(docs, root, {});
      root in w.fetched &&
      forall d, u :: d in w.fetched && ChildOf(docs, d, u) ==> u in w.fetched
  {
    var w := Traverse(docs, root, {});
    FetchedOnce(docs, root, {});
    TraverseClosed(docs, root, {});
    assert w.seen == Elems(w.fetched);
  }

  /** `path` leads from `root` through index entries: each step goes to a child. */
  ghost predicate IsPath(docs: Docs, root: string, path: seq<string>) {
    path != [] && path[0] == root &&
    forall i :: 0 <= i < |path| - 1 ==> ChildOf(docs, path[i], path[i + 1])
  }

  /** Every sitemap reachable from the root through index entries is fetched. */
  lemma {:induction false} ReachableFetched(docs: Docs, root: string, path: seq<string>)
    requires IsPath(docs, root, path)
    ensures path[|path| - 1] in Traverse(docs, root, {}).fetched
    decreases |path|
  {
    ChildrenFetched(docs, root);
    if |path| > 1 {
      var front := path[..|path| - 1];
      assert IsPath(docs, root, front) by {
        forall i | 0 <= i < |front| - 1 ensures ChildOf(docs, front[i], front[i + 1]) {
          assert front[i] == path[i] && front[i + 1] == path[i + 1];
        }
      }
      ReachableFetched(docs, root, front);
      assert ChildOf(docs, path[|path| - 2], path[|path| - 1]);
    }
  }

  /**
   * The traversal returns the full set of leaf URLs reachable from the root: a `<loc>`
   * of any urlset reachable through index entries is among the URLs found.
   */
  lemma ReachableUrlsReturned(docs: Docs, root: string, path: seq<string>, u: string)
    requires IsPath(docs, root, path) && ListedIn(docs, path[|path| - 1], u)
    ensures u in Traverse(docs, root, {}).urls
  {
    ReachableFetched(docs, root, path);
    UrlsComplete(docs, root, {});
  }

  /** A step from `url` to its child `c`, then a path from `c`, is a path from `url`. */
  lemma PathCons(docs: Docs, url: string, c: string, path: seq<string>)
    requires ChildOf(docs, url, c) && IsPath(docs, c, path)
    ensures IsPath(docs, url, [url] + path) && ([url] + path)[|path|] == path[|path| - 1]
  {
    var p := [url] + path;
    forall i | 0 <= i < |p| - 1 ensures ChildOf(docs, p[i], p[i + 1]) {
      if i > 0 {
        assert p[i] == path[i - 1] && p[i + 1] == path[i];
      }
    }
  }

  /** Only sitemaps reachable from the start through index entries are fetched. */
  lemma {:induction false} FetchedReachable(docs: Docs, url: string, seen: set<string>, d: string)
    requires d in Traverse(docs, url, seen).fetched
    ensures exists path :: IsPath(docs, url, path) && path[|path| - 1] == d
    decreases docs.Keys - seen, 0, 0
  {
    if d == url {
      assert IsPath(docs, url, [url]);
    } else {
      var entries := docs[url].entries;
      EntriesFetchedReachable(docs, entries, seen + {url}, d);
      var c, path :| Some(c) in entries && IsPath(docs, c, path) && path[|path| - 1] == d;
      PathCons(docs, url, c, path);
    }
  }

  lemma {:induction false} EntriesFetchedReachable(docs: Docs, entries: seq<Option<string>>,
                                                   seen: set<string>, d: string)
    requires d in TraverseEntries(docs, entries, seen).fetched
    ensures exists c, path :: Some(c) in entries && IsPath(docs, c, path) && path[|path| - 1] == d
    decreases docs.Keys - seen, |entries|, 2
  {
    var first := EntryWalk(docs, entries[0], seen);
    if d in first.fetched {
      var c := entries[0].value;
      FetchedReachable(docs, c, seen, d);
      var path :| IsPath(docs, c, path) && path[|path| - 1] == d;
      assert Some(c) in entries;
    } else {
      EntriesFetchedReachable(docs, entries[1..], first.seen, d);
      var c, path :| Some(c) in entries[1..] && IsPath(docs, c, path) && path[|path| - 1] == d;
      assert Some(c) in entries;
    }
  }

  /** Every page URL returned is a `<loc>` of a urlset reachable from the root. */
  lemma UrlsOnlyReachable(docs: Docs, root: string, u: string)
    requires u in Traverse(docs, root, {}).urls
    ensures exists path :: IsPath(docs, root, path) && ListedIn(docs, path[|path| - 1], u)
  {
    UrlsListed(docs, root, {});
    var d :| d in Traverse(docs, root, {}).fetched && ListedIn(docs, d, u);
    FetchedReachable(docs, root, {}, d);
  }

  /** A URL already seen yields nothing and changes nothing, so a second run is a no-op. */
  lemma RevisitIsNoop(docs: Docs, url: string, seen: set<string>)
    ensures var w := Traverse(docs, url, seen);
      Traverse(docs, url, w.seen) == Walk([], w.seen, [])
  {
  }

  /** Two sitemap indexes that list each other: both are fetched once, and the walk ends. */
  lemma MutualIndexes(a: string, b: string)
    requires a != b
    ensures var docs := map[a := Index([Some(b)]), b := Index([Some(a)])];
      Traverse(docs, a, {}) == Walk([], {a, b}, [a, b])
  {
    var docs := map[a := Index([Some(b)]), b := Index([Some(a)])];
    var ab := {a, b};
    assert [Some(a)][1..] == [] && [Some(b)][1..] == [];
    var inner := Traverse(docs, a, ab);
    assert inner == Walk([], ab, []);
    var none := TraverseEntries(docs, [], ab);
    assert none == Walk([], ab, []);
    assert EntryWalk(docs, Some(a), ab) == inner;
    var innerEntries := TraverseEntries(docs, [Some(a)], ab);
    assert innerEntries == Walk(inner.urls + none.urls, none.seen, inner.fetched + none.fetched);
    assert innerEntries == Walk([], ab, []);
    assert {a} + {b} == ab;
    var middle := Traverse(docs, b, {a});
    assert middle == Walk([], ab, [b]);
    assert EntryWalk(docs, Some(b), {a}) == middle;
    assert TraverseEntries(docs, [], ab) == Walk([], ab, []);
    var outerEntries := TraverseEntries(docs, [Some(b)], {a});
    assert outerEntries == Walk([], ab, [b]);
    assert {} + {a} == {a};
  }

  /**
   * An index listing two urlsets, one with two page URLs and the other with one:
   * all three page URLs come back, in document order.
   */
  lemma IndexOfTwoUrlSets(root: string, s1: string, s2: string, p1: string, p2: string, p3: string)
    requires root != s1 && root != s2 && s1 != s2
    ensures var docs := map[root := Index([Some(s1), Some(s2)]),
                            s1 := UrlSet([Some(p1), Some(p2)]),
                            s2 := UrlSet([Some(p3)])];
      Traverse(docs, root, {}).urls == [p1, p2, p3]
  {
    var docs := map[root := Index([Some(s1), Some(s2)]),
                    s1 := UrlSet([Some(p1), Some(p2)]),
                    s2 := UrlSet([Some(p3)])];
    var e := [Some(s1), Some(s2)];
    assert e[1..] == [Some(s2)] && [Some(s2)][1..] == [];
    assert [Some(p1), Some(p2)][1..] == [Some(p2)] && [Some(p2)][1..] == [] && [Some(p3)][1..] == [];
    assert Locs([Some(p1), Some(p2)]) == [p1, p2];
    assert Locs([Some(p3)]) == [p3];
    var t1 := Traverse(docs, s1, {root});
    assert t1.urls == [p1, p2] && t1.seen == {root, s1};
    var t2 := Traverse(docs, s2, {root, s1});
    assert t2.urls == [p3];
    var none := TraverseEntries(docs, [], t2.seen);
    assert none.urls == [];
    assert EntryWalk(docs, Some(s2), {root, s1}) == t2;
    var last := TraverseEntries(docs, [Some(s2)], {root, s1});
    assert last.urls == t2.urls + none.urls;
    assert last.urls == [p3];
    assert EntryWalk(docs, Some(s1), {root}) == t1;
    var all := TraverseEntries(docs, e, {root});
    assert all.urls == [p1, p2, p3];
    assert {} + {root} == {root};
  }

  /** The urlset branch's loop: the `<loc>` text of each `<url>` entry that has one. */
  method CollectLocs(entries: seq<Option<string>>) returns (urls: seq<string>)
    ensures urls == Locs(entries)
  {
    urls := [];
    var i := 0;
    while i < |entries|
      invariant 0 <= i <= |entries|
      invariant urls + Locs(entries[i..]) == Locs(entries)
    {
      assert entries[i..][1..] == entries[i + 1..];
      var loc := entries[i];
      if loc.Some? {
        urls := urls + [loc.value];
      }
      i := i + 1;
    }
    assert entries[i..] == [];
  }

  /** The walk of the entries from `i` on is the walk of entry `i`, then the rest. */
  lemma EntriesUnfold(docs: Docs, entries: seq<Option<string>>, i: nat, seen: set<string>)
    requires i < |entries|
    ensures var step := EntryWalk(docs, entries[i], seen);
      var rest := TraverseEntries(docs, entries[i + 1..], step.seen);
      TraverseEntries(docs, entries[i..], seen) ==
        Walk(step.urls + rest.urls, rest.seen, step.fetched + rest.fetched)
  {
    assert entries[i..][0] == entries[i] && entries[i..][1..] == entries[i + 1..];
  }

  /**
   * The source's recursion. The seen set is shared by every call of one domain's
   * traversal; `fetched` logs the fetches made.
   */
  class Traverser {
    const docs: Docs
    var seen: set<string>
    ghost var fetched: seq<string>

    constructor(docs: Docs)
      ensures this.docs == docs && seen == {} && fetched == []
    {
      this.docs := docs;
      seen := {};
      fetched := [];
    }

    method Extract(url: string) returns (urls: seq<string>)
      modifies this
      ensures var w := Traverse(docs, url, old(seen));
        urls == w.urls && seen == w.seen && fetched == old(fetched) + w.fetched
      decreases docs.Keys - seen, 0, 0
    {
      if url in seen {
        return [];
      }
      seen := seen + {url};
      fetched := fetched + [url];
      if url !in docs {
        return [];
      }
      match docs[url]
      case Index(entries) =>
        urls := ExtractEntries(entries);
      case UrlSet(entries) =>
        urls := CollectLocs(entries);
      case Other =>
        urls := [];
      case Malformed =>
        urls := [];
    }

    /** The loop over the `<sitemap>` entries of an index, each `<loc>` extracted in turn. */
    method ExtractEntries(entries: seq<Option<string>>) returns (urls: seq<string>)
      modifies this
      ensures var w := TraverseEntries(docs, entries, old(seen));
        urls == w.urls && seen == w.seen && fetched == old(fetched) + w.fetched
      decreases docs.Keys - seen, |entries|, 1
    {
      ghost var all := TraverseEntries(docs, entries, seen);
      urls := [];
      var i := 0;
      while i < |entries|
        invariant 0 <= i <= |entries|
        invariant old(seen) <= seen
        invariant var rest := TraverseEntries(docs, entries[i..], seen);
          urls + rest.urls == all.urls && rest.seen == all.seen &&
          fetched + rest.fetched == old(fetched) + all.fetched
        decreases |entries| - i
      {
        EntriesUnfold(docs, entries, i, seen);
        var nested := ExtractEntry(entries[i]);
        urls := urls + nested;
        i := i + 1;
      }
      assert entries[i..] == [];
    }

    /** One `<sitemap>` entry of an index: skipped without a `<loc>`, else extracted. */
    method ExtractEntry(entry: Option<string>) returns (urls: seq<string>)
      modifies this
      ensures var w := EntryWalk(docs, entry, old(seen));
        urls == w.urls && seen == w.seen && fetched == old(fetched) + w.fetched
      decreases docs.Keys - seen, 0, 1
    {
      urls := [];
      if entry.Some? {
        urls := Extract(entry.value);
      }
    }
  }
}
