/** Recursive expansion of a sitemap URL into the page URLs it lists, following
    the Sitemaps XML protocol (sitemaps.org, schema 0.9): a `<urlset>` lists
    pages, a `<sitemapindex>` lists further sitemaps. The network and the XML
    parser are inputs: a finite tree says what fetching and parsing each sitemap
    URL gives. Every failure stays local to its node. */
module SitemapExpansion {
  import opened Wrappers
  import opened Batching
  import opened Debug
  import opened AnalyzeConfig

  /** A `<loc>` value as the XML parser delivers it; anything but a string is dropped. */
  datatype Loc = TextLoc(text: string) | NonTextLoc

  /** One `<sitemap>` entry of an index: a string `<loc>` with what fetching it gives, or anything else. */
  datatype IndexEntry = ChildSitemap(child: Sitemap) | NonTextChild

  /** What fetching and parsing the sitemap at `url` yields. */
  datatype Sitemap = Sitemap(url: string, fetch: Fetch)

  datatype Fetch =
    /** `axios.get` rejected: network error, timeout or a status of 400 or more. */
    | RequestFailed(message: string)
    /** `XMLParser.parse` threw. */
    | Unparsable(message: string)
    /** The parsed document: the `url` list under `urlset` (`None` when the document
        has none) and the `sitemap` list under `sitemapindex`. */
    | Parsed(urlset: Option<seq<Loc>>, sitemapindex: SitemapList)

  /** The `sitemap` list under `sitemapindex`, when the document has one. */
  datatype SitemapList = NoSitemapList | SitemapList(entries: seq<IndexEntry>)

  /** The string `<loc>` values, in document order (`.map(item => item.loc).filter(isString)`). */
  function TextLocs(locs: seq<Loc>): (urls: seq<string>)
    ensures |urls| <= |locs|
    ensures forall u :: u in urls <==> TextLoc(u) in locs
  {
    if |locs| == 0 then []
    else (if locs[0].TextLoc? then [locs[0].text] else []) + TextLocs(locs[1..])
  }

  /** The child sitemaps of an index with a string `<loc>`, in document order. */
  function ChildLocs(entries: seq<IndexEntry>): (children: seq<Sitemap>)
    ensures |children| <= |entries|
    ensures forall c :: c in children <==> ChildSitemap(c) in entries
  {
    if |entries| == 0 then []
    else (if entries[0].ChildSitemap? then [entries[0].child] else []) + ChildLocs(entries[1..])
  }

  /** The page URLs a sitemap expands to: the `urlset` when present, else the
      expansions of the index's children in document order, else nothing. */
  function Expanded(s: Sitemap): seq<string>
    decreases s, 1
  {
    match s.fetch
    case RequestFailed(_) => []
    case Unparsable(_) => []
    case Parsed(urlset, index) =>
      if urlset.Some? then TextLocs(urlset.value)
      else if index.SitemapList? then ExpandedEntries(index.entries)
      else []
  }

  function ExpandedEntries(entries: seq<IndexEntry>): seq<string>
    decreases entries, 0
  {
    if |entries| == 0 then []
    else
      var e := entries[0];
      assert e in entries && (e.ChildSitemap? ==> e.child < e);
      (if e.ChildSitemap? then Expanded(e.child) else []) 
      + ExpandedEntries(entries[1..])
  }

  function FetchError(url: string, message: string): string {
    "Error processing sitemap " + url + ": " + message
  }

  function ParseError(url: string, message: string): string {
    "Error parsing XML from " + url + ": " + message
  }

  /** The `parsingErrors` entries expanding `s` appends, in document order. */
  function ExpansionErrors(s: Sitemap): seq<string>
    decreases s, 1
  {
    match s.fetch
    case RequestFailed(m) => [FetchError(s.url, m)]
    case Unparsable(m) => [ParseError(s.url, m)]
    case Parsed(urlset, index) =>
      if urlset.Some? then []
      else if index.SitemapList? then EntriesErrors(index.entries)
      else []
  }

  function EntriesErrors(entries: seq<IndexEntry>): seq<string>
    decreases entries, 0
  {
    if |entries| == 0 then []
    else
      var e := entries[0];
      assert e in entries && (e.ChildSitemap? ==> e.child < e);
      (if e.ChildSitemap? then ExpansionErrors(e.child) else []) 
      + EntriesErrors(entries[1..])
  }

  /** The expansions of a list of sitemaps, concatenated in order. */
  function ExpandedList(children: seq<Sitemap>): seq<string> {
    if |children| == 0 then [] else ExpandedList(children[..|children| - 1]) + Expanded(children[|children| - 1])
  }

  function ErrorsList(children: seq<Sitemap>): seq<string> {
    if |children| == 0 then [] else ErrorsList(children[..|children| - 1]) + ExpansionErrors(children[|children| - 1])
  }

  lemma ExpandedListAppend(a: seq<Sitemap>, b: seq<Sitemap>)
    ensures ExpandedList(a + b) == ExpandedList(a) + ExpandedList(b)
    ensures ErrorsList(a + b) == ErrorsList(a) + ErrorsList(b)
  {
    UrlsAppend(a, b);
    ErrorsAppend(a, b);
  }

  lemma {:induction false} UrlsAppend(a: seq<Sitemap>, b: seq<Sitemap>)
    ensures ExpandedList(a + b) == ExpandedList(a) + ExpandedList(b)
    decreases |b|
  {
    if |b| == 0 {
      assert a + b == a;
    } else {
      var init := b[..|b| - 1];
      assert (a + b)[..|a + b| - 1] == a + init;
      UrlsAppend(a, init);
      Associative(ExpandedList(a), ExpandedList(init), Expanded(b[|b| - 1]));
    }
  }

  lemma {:induction false} ErrorsAppend(a: seq<Sitemap>, b: seq<Sitemap>)
    ensures ErrorsList(a + b) == ErrorsList(a) + ErrorsList(b)
    decreases |b|
  {
    if |b| == 0 {
      assert a + b == a;
    } else {
      var init := b[..|b| - 1];
      assert (a + b)[..|a + b| - 1] == a + init;
      ErrorsAppend(a, init);
      Associative(ErrorsList(a), ErrorsList(init), ExpansionErrors(b[|b| - 1]));
    }
  }

  lemma {:induction false} ExpandedListCons(c: Sitemap, cs: seq<Sitemap>)
    ensures ExpandedList([c] + cs) == Expanded(c) + ExpandedList(cs)
    ensures ErrorsList([c] + cs) == ExpansionErrors(c) + ErrorsList(cs)
    decreases |cs|
  {
    if |cs| > 0 {
      var init := cs[..|cs| - 1];
      assert ([c] + cs)[..|cs|] == [c] + init;
      ExpandedListCons(c, init);
    } else {
      assert [c] + cs == [c];
      assert ([c] + cs)[..0] == [];
    }
  }

  /** Expanding the string-`<loc>` children one after another is expanding the index. */
  lemma ChildLocsExpand(entries: seq<IndexEntry>)
    ensures ExpandedList(ChildLocs(entries)) == ExpandedEntries(entries)
    ensures ErrorsList(ChildLocs(entries)) == EntriesErrors(entries)
  {
    ChildLocsUrls(entries);
    ChildLocsErrors(entries);
  }

  lemma {:induction false} ChildLocsUrls(entries: seq<IndexEntry>)
    ensures ExpandedList(ChildLocs(entries)) == ExpandedEntries(entries)
  {
    if |entries| > 0 {
      var rest := entries[1..];
      ChildLocsUrls(rest);
      if entries[0].ChildSitemap? {
        var c := entries[0].child;
        assert ChildLocs(entries) == [c] + ChildLocs(rest);
        assert ExpandedEntries(entries) == Expanded(c) + ExpandedEntries(rest);
        ExpandedListCons(c, ChildLocs(rest));
      } else {
        assert ChildLocs(entries) == ChildLocs(rest);
        assert ExpandedEntries(entries) == [] + ExpandedEntries(rest);
      }
    }
  }

  lemma {:induction false} ChildLocsErrors(entries: seq<IndexEntry>)
    ensures ErrorsList(ChildLocs(entries)) == EntriesErrors(entries)
  {
    if |entries| > 0 {
      var rest := entries[1..];
      ChildLocsErrors(rest);
      if entries[0].ChildSitemap? {
        var c := entries[0].child;
        assert ChildLocs(entries) == [c] + ChildLocs(rest);
        assert EntriesErrors(entries) == ExpansionErrors(c) + EntriesErrors(rest);
        ExpandedListCons(c, ChildLocs(rest));
      } else {
        assert ChildLocs(entries) == ChildLocs(rest);
        assert EntriesErrors(entries) == [] + EntriesErrors(rest);
      }
    }
  }

  /** `extractUrlsFromSitemap`: never fails; fetch and parse failures add one
      `parsingErrors` entry for their node and contribute no URLs. */
  method ExtractUrls(s: Sitemap, debug: DebugLog) returns (urls: seq<string>)
    modifies debug
    ensures urls == Expanded(s)
    ensures debug.Contents() == old(debug.Contents()).(parsingErrors := old(debug.parsingErrors) + ExpansionErrors(s))
    decreases s, 1
  {
    match s.fetch
    case RequestFailed(m) =>
      debug.AddParsingError(FetchError(s.url, m));
      urls := [];
    case Unparsable(m) =>
      debug.AddParsingError(ParseError(s.url, m));
      urls := [];
    case Parsed(urlset, index) =>
      if urlset.Some? {
        urls := TextLocs(urlset.value);
      } else if index.SitemapList? {
        urls := ExtractIndex(index.entries, debug);
      } else {
        urls := [];
      }
  }

  /** The sitemap-index branch: the string-`<loc>` children are expanded in
      batches of `CONCURRENT_REQUESTS` (one after another here) and the results
      concatenated in document order. */
  method ExtractIndex(entries: seq<IndexEntry>, debug: DebugLog) returns (urls: seq<string>)
    modifies debug
    ensures urls == ExpandedEntries(entries)
    ensures debug.Contents() == old(debug.Contents()).(parsingErrors := old(debug.parsingErrors) + EntriesErrors(entries))
    decreases entries, 0
  {
    var sitemapUrls := ChildLocs(entries);
    var n := |sitemapUrls|;
    var results: seq<seq<string>> := [];
    var i := 0;
    while i < n
      invariant 0 <= i
      invariant Flatten(results) == ExpandedList(sitemapUrls[..Min(i, n)])
      invariant debug.Contents() == old(debug.Contents()).(parsingErrors := old(debug.parsingErrors) + ErrorsList(sitemapUrls[..Min(i, n)]))
    {
      assert Min(i, n) == i;
      var hi := Min(i + CONCURRENT_REQUESTS, n);
      var batch := sitemapUrls[i..hi];
      var batchResults := ExtractBatch(entries, sitemapUrls, i, batch, debug);
      FlattenAppend(results, batchResults);
      ExpandedListAppend(sitemapUrls[..i], batch);
      SliceSplit(sitemapUrls, i, hi);
      assert ErrorsList(sitemapUrls[..hi]) == ErrorsList(sitemapUrls[..i]) + ErrorsList(batch);
      Associative(old(debug.parsingErrors), ErrorsList(sitemapUrls[..i]), ErrorsList(batch));
      assert debug.Contents() == old(debug.Contents()).(parsingErrors := old(debug.parsingErrors) + ErrorsList(sitemapUrls[..hi]));
      results := results + batchResults;
      assert Min(i + CONCURRENT_REQUESTS, n) == hi;
      i := i + CONCURRENT_REQUESTS;
    }
    assert sitemapUrls[..Min(i, n)] == sitemapUrls;
    ChildLocsExpand(entries);
    urls := Flatten(results);
  }

  lemma ListsSnoc(children: seq<Sitemap>, j: nat)
    requires j < |children|
    ensures ExpandedList(children[..j + 1]) == ExpandedList(children[..j]) + Expanded(children[j])
    ensures ErrorsList(children[..j + 1]) == ErrorsList(children[..j]) + ExpansionErrors(children[j])
  {
    assert children[..j + 1][..j] == children[..j];
  }

  /** `Promise.all(batch.map(url => extractUrlsFromSitemap(url, debugInfo)))`, one child after another. */
  method ExtractBatch(entries: seq<IndexEntry>, ghost sitemapUrls: seq<Sitemap>, ghost start: nat, batch: seq<Sitemap>, debug: DebugLog)
      returns (results: seq<seq<string>>)
    requires sitemapUrls == ChildLocs(entries) && start + |batch| <= |sitemapUrls|
    requires batch == sitemapUrls[start..start + |batch|]
    modifies debug
    ensures Flatten(results) == ExpandedList(batch)
    ensures debug.Contents() == old(debug.Contents()).(parsingErrors := old(debug.parsingErrors) + ErrorsList(batch))
    decreases entries, -1
  {
    results := [];
    var j := 0;
    while j < |batch|
      invariant 0 <= j <= |batch|
      invariant Flatten(results) == ExpandedList(batch[..j])
      invariant debug.Contents() == old(debug.Contents()).(parsingErrors := old(debug.parsingErrors) + ErrorsList(batch[..j]))
    {
      var child := batch[j];
      var e := ChildSitemap(child);
      assert child == sitemapUrls[start + j] && child in sitemapUrls;
      assert e in entries && e.child < e;
      var childUrls := ExtractUrls(child, debug);
      FlattenAppend(results, [childUrls]);
      ListsSnoc(batch, j);
      Associative(old(debug.parsingErrors), ErrorsList(batch[..j]), ExpansionErrors(child));
      results := results + [childUrls];
      j := j + 1;
    }
    SliceAll(batch);
  }

  // ---- Properties of the expansion ----

  /** A `urlset` wins over a `sitemapindex` in the same document: the index is never followed. */
  lemma UrlsetTakesPrecedence(url: string, locs: seq<Loc>, index: SitemapList)
    ensures Expanded(Sitemap(url, Parsed(Some(locs), index))) == TextLocs(locs)
    ensures ExpansionErrors(Sitemap(url, Parsed(Some(locs), index))) == []
  {
  }

  /** A document that is neither a `urlset` nor a `sitemapindex` yields nothing and logs nothing. */
  lemma UnrecognizedDocument(url: string)
    ensures Expanded(Sitemap(url, Parsed(None, NoSitemapList))) == []
    ensures ExpansionErrors(Sitemap(url, Parsed(None, NoSitemapList))) == []
  {
  }

  /** Non-string `<loc>` values are dropped; string ones are kept with their
      multiplicity and order, duplicates included. */
  lemma {:induction false} TextLocsKeepsEveryString(locs: seq<Loc>, u: string)
    ensures multiset(TextLocs(locs))[u] == multiset(locs)[TextLoc(u)]
  {
    if |locs| > 0 {
      var head: seq<string> := if locs[0].TextLoc? then [locs[0].text] else [];
      assert TextLocs(locs) == head + TextLocs(locs[1..]);
      TextLocsKeepsEveryString(locs[1..], u);
      assert locs == [locs[0]] + locs[1..];
      assert multiset(head)[u] == multiset([locs[0]])[TextLoc(u)];
    }
  }

  /** Two copies of a page in a `urlset` give two copies in the expansion: nothing is deduplicated. */
  lemma DuplicatesKept(url: string, page: string)
    ensures Expanded(Sitemap(url, Parsed(Some([TextLoc(page), TextLoc(page)]), NoSitemapList))) == [page, page]
  {
  }

  /** An index expands to its children's expansions concatenated in document order,
      however they were batched; a child that fails contributes nothing but its own error. */
  lemma {:induction false} IndexFlattensChildren(url: string, entries: seq<IndexEntry>)
    ensures Expanded(Sitemap(url, Parsed(None, SitemapList(entries)))) == Flatten(ChildExpansions(ChildLocs(entries)))
  {
    ChildLocsExpand(entries);
    ExpandedListFlatten(ChildLocs(entries));
  }

  function ChildExpansions(children: seq<Sitemap>): (r: seq<seq<string>>)
    ensures |r| == |children|
    ensures forall k :: 0 <= k < |children| ==> r[k] == Expanded(children[k])
  {
    if |children| == 0 then [] else [Expanded(children[0])] + ChildExpansions(children[1..])
  }

  lemma {:induction false} ExpandedListFlatten(children: seq<Sitemap>)
    ensures ExpandedList(children) == Flatten(ChildExpansions(children))
  {
    if |children| > 0 {
      ExpandedListFlatten(children[1..]);
      ExpandedListCons(children[0], children[1..]);
      assert [children[0]] + children[1..] == children;
    }
  }

  /** Every sitemap node that fails to fetch or parse adds exactly one error; a
      tree without failures adds none. */
  function FailedNodes(s: Sitemap): nat
    decreases s, 1
  {
    match s.fetch
    case RequestFailed(_) => 1
    case Unparsable(_) => 1
    case Parsed(urlset, index) =>
      if urlset.Some? then 0
      else if index.SitemapList? then FailedEntries(index.entries)
      else 0
  }

  function FailedEntries(entries: seq<IndexEntry>): nat
    decreases entries, 0
  {
    if |entries| == 0 then 0
    else
      var e := entries[0];
      assert e in entries && (e.ChildSitemap? ==> e.child < e);
      (if e.ChildSitemap? then FailedNodes(e.child) else 0) 
      + FailedEntries(entries[1..])
  }

  lemma {:induction false} OneErrorPerFailedNode(s: Sitemap)
    ensures |ExpansionErrors(s)| == FailedNodes(s)
    decreases s, 1
  {
    match s.fetch
    case RequestFailed(_) =>
    case Unparsable(_) =>
    case Parsed(urlset, index) =>
      if urlset.None? && index.SitemapList? {
        OneErrorPerFailedEntry(index.entries);
      }
  }

  lemma {:induction false} OneErrorPerFailedEntry(entries: seq<IndexEntry>)
    ensures |EntriesErrors(entries)| == FailedEntries(entries)
    decreases entries, 0
  {
    if |entries| > 0 {
      var e := entries[0];
      assert e in entries;
      if e.ChildSitemap? {
        assert e.child < e;
        OneErrorPerFailedNode(e.child);
      }
      OneErrorPerFailedEntry(entries[1..]);
    }
  }

  /** The example of an index with two children, one of which cannot be fetched:
      only the surviving child's pages come back, and one error is logged. */
  lemma OneChildFails(index: string, good: string, bad: string, pages: seq<string>, message: string)
    ensures var tree := Sitemap(index, Parsed(None, SitemapList([
              ChildSitemap(Sitemap(good, Parsed(Some(seq(|pages|, k requires 0 <= k < |pages| => TextLoc(pages[k]))), NoSitemapList))),
              ChildSitemap(Sitemap(bad, RequestFailed(message)))])));
            Expanded(tree) == pages && ExpansionErrors(tree) == [FetchError(bad, message)]
  {
    var locs := seq(|pages|, k requires 0 <= k < |pages| => TextLoc(pages[k]));
    AllTextLocs(pages, locs);
    var goodChild := Sitemap(good, Parsed(Some(locs), NoSitemapList));
    var badChild := Sitemap(bad, RequestFailed(message));
    var entries := [ChildSitemap(goodChild), ChildSitemap(badChild)];
    assert entries[1..][1..] == [];
    assert ExpandedEntries(entries[1..]) == [] + [];
    assert ExpandedEntries(entries) == pages + [];
    assert EntriesErrors(entries[1..]) == [FetchError(bad, message)] + [];
    assert EntriesErrors(entries) == [] + [FetchError(bad, message)];
  }

  lemma {:induction false} AllTextLocs(pages: seq<string>, locs: seq<Loc>)
    requires |locs| == |pages| && forall k :: 0 <= k < |pages| ==> locs[k] == TextLoc(pages[k])
    ensures TextLocs(locs) == pages
  {
    if |pages| > 0 {
      AllTextLocs(pages[1..], locs[1..]);
    }
  }
}
