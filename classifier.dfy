/**
 * The product-page classifier: the Celery task `process_urls_chunk`, which keeps,
 * in order, the URLs that contain one of a fixed set of path fragments.
 */
module Classifier {
  import opened Text
  import opened Sequences

  /** The path fragments that mark a product page (each a literal, so a substring test). */
  const ProductPatterns: seq<string> := ["/product/", "/item/", "/p/", "/prod/", "/products/"]

  /** `any(pattern.search(url) for pattern in PRODUCT_PATTERNS)`. */
  predicate IsProductUrl(url: string) {
    exists p | p in ProductPatterns :: Contains(url, p)
  }

  /** `[url for url in urls if IsProductUrl(url)]`. */
  function ProductUrls(urls: seq<string>): (kept: seq<string>)
    ensures |kept| <= |urls|
    decreases |urls|
  {
    if urls == [] then []
    else
      var rest := ProductUrls(urls[1..]);
      if IsProductUrl(urls[0]) then [urls[0]] + rest else rest
  }

  /** The classifier keeps exactly the product URLs. */
  lemma {:induction false} ProductUrlsMembers(urls: seq<string>)
    ensures forall u :: u in ProductUrls(urls) <==> u in urls && IsProductUrl(u)
    decreases |urls|
  {
    if urls != [] {
      ProductUrlsMembers(urls[1..]);
      assert urls == [urls[0]] + urls[1..];
    }
  }

  /** The task's reply: the chunk's product URLs under the one key `domain`. */
  function ProcessUrlsChunk(domain: string, urls: seq<string>): (r: map<string, seq<string>>)
    ensures r.Keys == {domain}
  {
    map[domain := ProductUrls(urls)]
  }

  /** The reply lists exactly the product URLs of the chunk, and nothing else. */
  lemma ProcessUrlsChunkMembers(domain: string, urls: seq<string>)
    ensures forall u :: u in ProcessUrlsChunk(domain, urls)[domain] <==> u in urls && IsProductUrl(u)
  {
    ProductUrlsMembers(urls);
  }

  /** The classifier keeps the URLs in their original relative order. */
  lemma {:induction false} ProductUrlsOrdered(urls: seq<string>)
    ensures IsSubsequence(ProductUrls(urls), urls)
    decreases |urls|
  {
    if urls != [] {
      var rest := ProductUrls(urls[1..]);
      ProductUrlsOrdered(urls[1..]);
      if IsProductUrl(urls[0]) {
        assert ([urls[0]] + rest)[1..] == rest;
      } else if rest != [] {
        // A dropped URL cannot be the first one kept after it.
        ProductUrlsMembers(urls[1..]);
        assert rest[0] in rest;
      }
    }
  }

  /** Every occurrence of a product URL is kept and every other URL dropped. */
  lemma {:induction false} ProductUrlsCounts(urls: seq<string>, u: string)
    ensures multiset(ProductUrls(urls))[u] == if IsProductUrl(u) then multiset(urls)[u] else 0
    decreases |urls|
  {
    if urls != [] {
      ProductUrlsCounts(urls[1..], u);
      assert urls == [urls[0]] + urls[1..];
    }
  }

  /** Classifying two lists one after the other is classifying their concatenation. */
  lemma {:induction false} ProductUrlsAppend(a: seq<string>, b: seq<string>)
    ensures ProductUrls(a + b) == ProductUrls(a) + ProductUrls(b)
    decreases |a|
  {
    if a == [] {
      assert a + b == b;
    } else {
      assert (a + b)[1..] == a[1..] + b;
      ProductUrlsAppend(a[1..], b);
    }
  }

  /** An occurrence of `pat` starts with `pat`'s first character and ends with its last. */
  lemma OccurrenceEnds(s: string, pat: string, i: int)
    requires OccursAt(s, pat, i) && pat != []
    ensures s[i] == pat[0] && s[i + |pat| - 1] == pat[|pat| - 1]
  {
    assert s[i] == s[i..i + |pat|][0];
    assert s[i + |pat| - 1] == s[i..i + |pat|][|pat| - 1];
  }

  /**
   * A pattern that starts and ends with '/' cannot occur in a URL in which no two
   * '/' characters stand the pattern's length apart.
   */
  lemma NotBetweenSlashes(s: string, pat: string, slashes: set<int>)
    requires 2 <= |pat| && pat[0] == '/' && pat[|pat| - 1] == '/'
    requires forall i :: 0 <= i < |s| && s[i] == '/' ==> i in slashes
    requires forall i, j :: i in slashes && j in slashes && i < j ==> j - i + 1 != |pat|
    ensures !Contains(s, pat)
  {
    ContainsIff(s, pat);
    forall i | OccursAt(s, pat, i) ensures s[i] == '/' && s[i + |pat| - 1] == '/' {
      OccurrenceEnds(s, pat, i);
    }
  }

  /** No product fragment occurs in a URL whose only '/' are those of "https://" and one more. */
  lemma NotProductBySlashes(s: string, k: int)
    requires 8 <= k < |s| && s[..8] == "https://"
    requires forall p | p in ProductPatterns :: k - 5 != |p| && k - 6 != |p|
    requires forall i :: 8 <= i < |s| && s[i] == '/' ==> i == k
    ensures !IsProductUrl(s)
  {
    forall i | 0 <= i < |s| && s[i] == '/' ensures i in {6, 7, k} {
      if i < 8 {
        assert s[i] == s[..8][i];
      }
    }
    forall p | p in ProductPatterns ensures !Contains(s, p) {
      NotBetweenSlashes(s, p, {6, 7, k});
    }
  }

  lemma ExampleAboutPage()
    ensures !IsProductUrl("https://www.example.com/about")
  {
    var u := "https://www.example.com/about";
    assert u[..8] == "https://";
    forall i | 8 <= i < |u| && u[i] == '/' ensures i == 23 {
    }
    NotProductBySlashes(u, 23);
  }

  /** A URL with "/product/" in it is a product URL. */
  lemma ProductPath(before: string, after: string)
    ensures IsProductUrl(before + "/product/" + after)
  {
    var s := before + "/product/" + after;
    assert s[|before|..|before| + 9] == "/product/";
    assert OccursAt(s, "/product/", |before|);
    ContainsIff(s, "/product/");
  }

  /** The unit test's chunk: two product pages and an "about" page; two are kept. */
  lemma SampleChunk()
    ensures var r := ProcessUrlsChunk("https://www.example.com", [
        "https://www.example.com/product/item1",
        "https://www.example.com/product/item2",
        "https://www.example.com/about"]);
      |r["https://www.example.com"]| == 2
  {
    var u1, u2, u3 := "https://www.example.com/product/item1",
                      "https://www.example.com/product/item2",
                      "https://www.example.com/about";
    assert u1 == "https://www.example.com" + "/product/" + "item1";
    ProductPath("https://www.example.com", "item1");
    assert u2 == "https://www.example.com" + "/product/" + "item2";
    ProductPath("https://www.example.com", "item2");
    ExampleAboutPage();
    var urls := [u1, u2, u3];
    assert urls[1..] == [u2, u3] && urls[1..][1..] == [u3] && [u3][1..] == [];
    assert ProductUrls([u3]) == [];
    assert ProductUrls([u2, u3]) == [u2];
  }
}
