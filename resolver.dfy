/**
 * `get_sitemap_url`: where a domain's sitemap is. The first robots.txt line that starts,
 * ignoring case, with "sitemap:" gives the answer; failing that, "/sitemap.xml" and then
 * "/sitemap" are probed.
 *
 * The network is the map `texts`: the body of every URL that answers 200; a URL
 * that is absent stands for a failed fetch (error, timeout or other status).
 */
module SitemapResolver {
  import opened Wrappers
  import opened Text

  datatype Resolution =
    | Found(url: string)
      /** A "sitemap:" line without ": ": `split(": ", 1)[1]` raises IndexError. */
    | MissingSeparator(line: string)
    | NotFound

  const RobotsPath := "/robots.txt"
  const DirectivePrefix := "sitemap:"
  const Separator := ": "
  /** The fallback locations, in the order they are probed. */
  const FallbackPaths: seq<string> := ["/sitemap.xml", "/sitemap"]

  /** `fetch`: the body of a successful response, if any. */
  function Fetch(texts: map<string, string>, url: string): Option<string> {
    if url in texts then Some(texts[url]) else None
  }

  /** Python's `if content:`: fetched, and not empty. */
  predicate Succeeded(content: Option<string>) {
    content.Some? && content.value != ""
  }

  predicate IsDirective(line: string) {
    StartsWith(Lower(line), DirectivePrefix)
  }

  /** What a directive line yields: its value after the first ": ", stripped. */
  function DirectiveValue(line: string): Resolution {
    match AfterFirst(line, Separator)
    case Some(v) => Found(Strip(v))
    case None => MissingSeparator(line)
  }

  /** Index of the first directive line. */
  function FirstDirective(lines: seq<string>): (r: Option<nat>)
    ensures r.Some? ==> r.value < |lines|
    decreases |lines|
  {
    if lines == [] then None
    else if IsDirective(lines[0]) then Some(0)
    else match FirstDirective(lines[1..])
      case None => None
      case Some(k) => Some(k + 1)
  }

  lemma {:induction false} FirstDirectiveSpec(lines: seq<string>)
    ensures FirstDirective(lines).Some? ==>
      var i := FirstDirective(lines).value;
      i < |lines| && IsDirective(lines[i]) && forall j :: 0 <= j < i ==> !IsDirective(lines[j])
    ensures FirstDirective(lines).None? <==> forall j :: 0 <= j < |lines| ==> !IsDirective(lines[j])
    decreases |lines|
  {
    if lines != [] && !IsDirective(lines[0]) {
      FirstDirectiveSpec(lines[1..]);
      assert forall j :: 1 <= j < |lines| ==> lines[j] == lines[1..][j - 1];
    }
  }

  /** The answer robots.txt gives, if it gives one. */
  function RobotsAnswer(robots: Option<string>): Option<Resolution> {
    if Succeeded(robots) then
      var lines := SplitLines(robots.value);
      match FirstDirective(lines)
      case Some(i) => Some(DirectiveValue(lines[i]))
      case None => None
    else None
  }

  /** The first candidate that fetches successfully. */
  function Probe(texts: map<string, string>, candidates: seq<string>): Resolution
    decreases |candidates|
  {
    if candidates == [] then NotFound
    else if Succeeded(Fetch(texts, candidates[0])) then Found(candidates[0])
    else Probe(texts, candidates[1..])
  }

  lemma {:induction false} ProbeSpec(texts: map<string, string>, candidates: seq<string>)
    ensures Probe(texts, candidates).MissingSeparator? == false
    ensures Probe(texts, candidates) == NotFound <==>
      forall j :: 0 <= j < |candidates| ==> !Succeeded(Fetch(texts, candidates[j]))
    ensures Probe(texts, candidates).Found? ==>
      exists i :: 0 <= i < |candidates| && Probe(texts, candidates).url == candidates[i] &&
        Succeeded(Fetch(texts, candidates[i])) &&
        forall j :: 0 <= j < i ==> !Succeeded(Fetch(texts, candidates[j]))
    decreases |candidates|
  {
    if candidates != [] {
      if !Succeeded(Fetch(texts, candidates[0])) {
        ProbeSpec(texts, candidates[1..]);
        assert forall j :: 1 <= j < |candidates| ==> candidates[j] == candidates[1..][j - 1];
        if Probe(texts, candidates).Found? {
          var i :| 0 <= i < |candidates[1..]| && Probe(texts, candidates).url == candidates[1..][i] &&
            Succeeded(Fetch(texts, candidates[1..][i])) &&
            forall j :: 0 <= j < i ==> !Succeeded(Fetch(texts, candidates[1..][j]));
          assert Probe(texts, candidates).url == candidates[i + 1];
        }
      }
    }
  }

  function Candidates(domain: string): seq<string> {
    [domain + FallbackPaths[0], domain + FallbackPaths[1]]
  }

  /** Where `get_sitemap_url(domain)` says the sitemap is. */
  function Resolve(domain: string, texts: map<string, string>): Resolution {
    match RobotsAnswer(Fetch(texts, domain + RobotsPath))
    case Some(r) => r
    case None => Probe(texts, Candidates(domain))
  }

  /** The first directive line of robots.txt, and what it yields: the loop over its lines. */
  method ScanRobots(lines: seq<string>) returns (r: Option<Resolution>)
    ensures r == match FirstDirective(lines)
      case Some(i) => Some(DirectiveValue(lines[i]))
      case None => None
  {
    FirstDirectiveSpec(lines);
    var i := 0;
    while i < |lines|
      invariant 0 <= i <= |lines|
      invariant forall j :: 0 <= j < i ==> !IsDirective(lines[j])
    {
      if StartsWith(Lower(lines[i]), DirectivePrefix) {
        assert FirstDirective(lines) == Some(i) by {
          var k := FirstDirective(lines).value;
          assert !(k < i) && !(i < k);
        }
        var value := AfterFirst(lines[i], Separator);
        if value.None? {
          return Some(MissingSeparator(lines[i]));
        }
        return Some(Found(Strip(value.value)));
      }
      i := i + 1;
    }
    return None;
  }

  /** The loop over the fallback locations: the first one that fetches. */
  method ProbeFallbacks(texts: map<string, string>, candidates: seq<string>) returns (r: Resolution)
    ensures r == Probe(texts, candidates)
  {
    var k := 0;
    while k < |candidates|
      invariant 0 <= k <= |candidates|
      invariant Probe(texts, candidates[k..]) == Probe(texts, candidates)
    {
      var sitemap := candidates[k];
      var content := Fetch(texts, sitemap);
      if Succeeded(content) {
        return Found(sitemap);
      }
      assert candidates[k..][1..] == candidates[k + 1..];
      k := k + 1;
    }
    return NotFound;
  }

  /** `get_sitemap_url`: robots.txt first, then the fallbacks, returning early. */
  method GetSitemapUrl(domain: string, texts: map<string, string>) returns (r: Resolution)
    ensures r == Resolve(domain, texts)
  {
    var content := Fetch(texts, domain + RobotsPath);
    if Succeeded(content) {
      var answer := ScanRobots(SplitLines(content.value));
      if answer.Some? {
        return answer.value;
      }
    }
    r := ProbeFallbacks(texts, Candidates(domain));
  }

  /** The first directive line of a fetched, non-empty robots.txt decides the answer. */
  lemma FirstDirectiveWins(domain: string, texts: map<string, string>, i: nat)
    requires Succeeded(Fetch(texts, domain + RobotsPath))
    requires var lines := SplitLines(texts[domain + RobotsPath]);
      i < |lines| && IsDirective(lines[i]) && forall j :: 0 <= j < i ==> !IsDirective(lines[j])
    ensures Resolve(domain, texts) == DirectiveValue(SplitLines(texts[domain + RobotsPath])[i])
  {
    var lines := SplitLines(texts[domain + RobotsPath]);
    FirstDirectiveSpec(lines);
    var k := FirstDirective(lines).value;
    assert !(k < i) && !(i < k);
  }

  /**
   * Once robots.txt names a sitemap (or fails on its directive line), the fallback
   * locations are not consulted: the answer depends on robots.txt alone.
   */
  lemma DirectiveSkipsProbes(domain: string, texts: map<string, string>, texts': map<string, string>)
    requires Fetch(texts, domain + RobotsPath) == Fetch(texts', domain + RobotsPath)
    requires RobotsAnswer(Fetch(texts, domain + RobotsPath)).Some?
    ensures Resolve(domain, texts) == Resolve(domain, texts')
    ensures Resolve(domain, texts) != NotFound
  {
  }

  /**
   * Without a usable directive (robots.txt missing, empty or without a "sitemap:" line)
   * the answer is "/sitemap.xml" if it fetches, else "/sitemap" if it fetches, else none.
   */
  lemma FallbackOrder(domain: string, texts: map<string, string>)
    requires RobotsAnswer(Fetch(texts, domain + RobotsPath)).None?
    ensures Succeeded(Fetch(texts, domain + "/sitemap.xml")) ==>
      Resolve(domain, texts) == Found(domain + "/sitemap.xml")
    ensures !Succeeded(Fetch(texts, domain + "/sitemap.xml")) && Succeeded(Fetch(texts, domain + "/sitemap")) ==>
      Resolve(domain, texts) == Found(domain + "/sitemap")
    ensures !Succeeded(Fetch(texts, domain + "/sitemap.xml")) && !Succeeded(Fetch(texts, domain + "/sitemap")) ==>
      Resolve(domain, texts) == NotFound
  {
    var cs := Candidates(domain);
    assert cs[0] == domain + "/sitemap.xml" && cs[1..] == [domain + "/sitemap"];
    assert Probe(texts, cs[1..]) == Probe(texts, [domain + "/sitemap"]);
    assert [domain + "/sitemap"][1..] == [];
  }

  /** robots.txt and "/sitemap.xml" unreachable, "/sitemap" reachable: "/sitemap" it is. */
  lemma NoRobotsSecondFallback(domain: string, texts: map<string, string>)
    requires domain + RobotsPath !in texts && domain + "/sitemap.xml" !in texts
    requires domain + "/sitemap" in texts && texts[domain + "/sitemap"] != ""
    ensures Resolve(domain, texts) == Found(domain + "/sitemap")
  {
    FallbackOrder(domain, texts);
  }

  /** "Sitemap: <url>" with `<url>` on one line is a single directive line. */
  lemma DirectiveLine(url: string)
    requires NoLineBreak(url)
    ensures SplitLines("Sitemap: " + url) == ["Sitemap: " + url]
    ensures IsDirective("Sitemap: " + url)
  {
    var line := "Sitemap: " + url;
    assert forall i :: 0 <= i < 9 ==> line[i] == "Sitemap: "[i];
    assert forall i :: 9 <= i < |line| ==> line[i] == url[i - 9];
    assert NoLineBreak(line);
    assert LineLength(line) == |line|;
    assert Lower(line)[..8] == DirectivePrefix;
  }

  /** The value of "Sitemap: <url>" is `<url>` when `<url>` has no surrounding whitespace. */
  lemma DirectiveLineValue(url: string)
    requires url != [] && !IsSpace(url[0]) && !IsSpace(url[|url| - 1])
    ensures DirectiveValue("Sitemap: " + url) == Found(url)
  {
    var line := "Sitemap: " + url;
    assert forall i :: 0 <= i < 9 ==> line[i] == "Sitemap: "[i];
    // The first ": " is the one after "Sitemap".
    assert line[7..9] == Separator;
    assert OccursAt(line, Separator, 7);
    forall j | 0 <= j < 7 ensures !OccursAt(line, Separator, j) {
      assert j + 2 <= |line| ==> line[j..j + 2][0] == line[j];
    }
    ContainsIff(line, Separator);
    FindSpec(line, Separator);
    assert Find(line, Separator).value == 7;
    assert line[9..] == url;
    StripStripped(url);
  }

  /** A robots.txt that is the single line "Sitemap: <url>" yields `<url>`. */
  lemma SingleDirective(domain: string, texts: map<string, string>, url: string)
    requires url != [] && NoLineBreak(url) && !IsSpace(url[0]) && !IsSpace(url[|url| - 1])
    requires domain + RobotsPath in texts && texts[domain + RobotsPath] == "Sitemap: " + url
    ensures Resolve(domain, texts) == Found(url)
  {
    var line := "Sitemap: " + url;
    DirectiveLine(url);
    DirectiveLineValue(url);
    assert FirstDirective([line]) == Some(0);
  }
}
