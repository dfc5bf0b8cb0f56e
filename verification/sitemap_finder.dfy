/** `findSitemaps`: the `Sitemap:` records of robots.txt with repeats of one
    normalised URL dropped, then a probe of each common sitemap path not
    already seen. The network is given as two functions, `get` for
    `axios.get` and `head` for `axios.head`. */
module SitemapFinder {
  import opened Wrappers
  import opened Text
  import opened RobotsTxt
  import Batching

  /** `SitemapLocation`; `present` is its `exists` field, and `isIndex` is
      absent when the probe was rejected. */
  datatype SitemapLocation = SitemapLocation(url: string, present: bool, isIndex: Option<bool>)

  /** What the network gives `axios.head`: a response with its status and its
      `content-type` header, if any, or a failure to get one. */
  datatype Probe = Responded(status: int, contentType: Option<string>) | ProbeThrew

  /** axios's default `validateStatus`: a response outside 2xx rejects the
      call as a failure would. */
  predicate AxiosAccepts(status: int) {
    200 <= status < 300
  }

  /** Whether `axios.head` rejects on this probe. */
  predicate Rejects(probe: Probe) {
    probe.ProbeThrew? || !AxiosAccepts(probe.status)
  }

  datatype FoundSitemaps = FoundSitemaps(fromRobotsTxt: seq<string>, commonLocations: seq<SitemapLocation>, error: Option<string>)

  const COMMON_SITEMAP_PATHS: seq<string> := ["/sitemap.xml", "/sitemap_index.xml", "/sitemaps.xml", "/sitemap/sitemap.xml"]

  /** `https://` and the cleaned domain. */
  function BaseUrl(domain: string): string {
    "https://" + NormalizeUrl(domain)
  }

  // ---------------------------------------------------------------------------
  // Dropping repeats of one key; `findSitemaps` keys a URL by `NormalizeUrl`

  /** The keys of `values`. */
  function KeysOf(values: seq<string>, key: string -> string): set<string>
    decreases |values|
  {
    if |values| == 0 then {} else KeysOf(values[..|values| - 1], key) + {key(values[|values| - 1])}
  }

  /** Each value whose key no earlier value has, as it was spelled, in
      order. */
  function Firsts(values: seq<string>, key: string -> string): seq<string>
    decreases |values|
  {
    if |values| == 0 then []
    else
      var init, last := values[..|values| - 1], values[|values| - 1];
      Firsts(init, key) + (if key(last) in KeysOf(init, key) then [] else [last])
  }

  predicate DistinctKeys(values: seq<string>, key: string -> string) {
    forall i, j :: 0 <= i < j < |values| ==> key(values[i]) != key(values[j])
  }

  lemma {:induction false} KeysOfMember(values: seq<string>, key: string -> string, k: string)
    ensures k in KeysOf(values, key) <==> exists i :: 0 <= i < |values| && key(values[i]) == k
    decreases |values|
  {
    if |values| > 0 {
      var init := values[..|values| - 1];
      KeysOfMember(init, key, k);
      if k in KeysOf(init, key) {
        var i :| 0 <= i < |init| && key(init[i]) == k;
        assert values[i] == init[i];
      }
      if exists i :: 0 <= i < |values| && key(values[i]) == k {
        var i :| 0 <= i < |values| && key(values[i]) == k;
        if i < |init| {
          assert init[i] == values[i];
        }
      }
    }
  }

  /** One more value: kept when its key is new. */
  lemma FirstsSnoc(values: seq<string>, key: string -> string, x: string)
    ensures KeysOf(values + [x], key) == KeysOf(values, key) + {key(x)}
    ensures key(x) !in KeysOf(values, key) ==> Firsts(values + [x], key) == Firsts(values, key) + [x]
    ensures key(x) in KeysOf(values, key) ==> Firsts(values + [x], key) == Firsts(values, key)
  {
    assert (values + [x])[..|values|] == values;
  }

  /** Dropping repeats loses no key. */
  lemma {:induction false} FirstsKeepKeys(values: seq<string>, key: string -> string)
    ensures KeysOf(Firsts(values, key), key) == KeysOf(values, key)
    decreases |values|
  {
    if |values| > 0 {
      var init, last := values[..|values| - 1], values[|values| - 1];
      FirstsKeepKeys(init, key);
      var f := Firsts(init, key);
      if key(last) !in KeysOf(init, key) {
        assert (f + [last])[..|f|] == f;
        assert KeysOf(f + [last], key) == KeysOf(f, key) + {key(last)};
      } else {
        assert f + [] == f;
      }
    }
  }

  /** No two kept entries share a key. */
  lemma {:induction false} FirstsDistinct(values: seq<string>, key: string -> string)
    ensures DistinctKeys(Firsts(values, key), key)
    decreases |values|
  {
    if |values| > 0 {
      var init, last := values[..|values| - 1], values[|values| - 1];
      FirstsDistinct(init, key);
      FirstsKeepKeys(init, key);
      var f := Firsts(init, key);
      if key(last) !in KeysOf(init, key) {
        forall i | 0 <= i < |f|
          ensures key(f[i]) != key(last)
        {
          KeysOfMember(f, key, key(f[i]));
        }
      }
    }
  }

  /** Every kept entry is one of the values, spelled as it was. */
  lemma {:induction false} FirstsFromValues(values: seq<string>, key: string -> string)
    ensures forall x :: x in Firsts(values, key) ==> x in values
    decreases |values|
  {
    if |values| > 0 {
      FirstsFromValues(values[..|values| - 1], key);
    }
  }

  /** A value that no earlier value shares its key with is kept. */
  lemma {:induction false} FirstKept(values: seq<string>, key: string -> string, i: nat)
    requires i < |values|
    requires forall k :: 0 <= k < i ==> key(values[k]) != key(values[i])
    ensures values[i] in Firsts(values, key)
    decreases |values|
  {
    var init, last := values[..|values| - 1], values[|values| - 1];
    if i < |init| {
      assert forall k :: 0 <= k < i ==> init[k] == values[k];
      FirstKept(init, key, i);
    } else {
      KeysOfMember(init, key, key(last));
      assert forall k :: 0 <= k < |init| ==> init[k] == values[k];
    }
  }

  /** Values with distinct keys are left as they are. */
  lemma {:induction false} FirstsOfDistinct(values: seq<string>, key: string -> string)
    requires DistinctKeys(values, key)
    ensures Firsts(values, key) == values
    decreases |values|
  {
    if |values| > 0 {
      DistinctInit(values, key);
      FirstsOfDistinct(values[..|values| - 1], key);
      assert values[..|values| - 1] + [values[|values| - 1]] == values;
    }
  }

  lemma DistinctInit(values: seq<string>, key: string -> string)
    requires |values| > 0 && DistinctKeys(values, key)
    ensures DistinctKeys(values[..|values| - 1], key)
    ensures key(values[|values| - 1]) !in KeysOf(values[..|values| - 1], key)
  {
    var init := values[..|values| - 1];
    assert forall i :: 0 <= i < |init| ==> init[i] == values[i];
    KeysOfMember(init, key, key(values[|values| - 1]));
  }

  /** Dropping repeats twice is dropping them once. */
  lemma FirstsIdempotent(values: seq<string>, key: string -> string)
    ensures Firsts(Firsts(values, key), key) == Firsts(values, key)
  {
    FirstsDistinct(values, key);
    FirstsOfDistinct(Firsts(values, key), key);
  }

  /** One more match read: the values read so far grow by its capture. */
  lemma ReadOne(content: string, lastIndex: nat, read: seq<string>)
    requires lastIndex <= |content| && Exec(content, lastIndex).Some?
    requires read + Captures(content, lastIndex) == SitemapValues(content)
    ensures read + [Trim(content[Exec(content, lastIndex).value.0..Exec(content, lastIndex).value.1])]
              + Captures(content, Exec(content, lastIndex).value.1) == SitemapValues(content)
  {
    NextCapture(content, lastIndex);
    var m := Exec(content, lastIndex).value;
    Batching.Associative(read, [Trim(content[m.0..m.1])], Captures(content, m.1));
  }

  /** The `exec` loop of `findSitemaps`, with its `seenUrls` set, the
      normalisation given as `normalize` (`findSitemaps` passes
      `NormalizeUrl`). */
  method ReadRobotsSitemaps(content: string, normalize: string -> string) returns (sitemaps: seq<string>, seenUrls: set<string>)
    ensures sitemaps == Firsts(SitemapValues(content), normalize)
    ensures seenUrls == KeysOf(SitemapValues(content), normalize)
  {
    sitemaps, seenUrls := [], {};
    ghost var read: seq<string> := [];
    var lastIndex := 0;
    var m := Exec(content, lastIndex);
    while m.Some?
      invariant lastIndex <= |content|
      invariant m == Exec(content, lastIndex)
      invariant read + Captures(content, lastIndex) == SitemapValues(content)
      invariant sitemaps == Firsts(read, normalize) && seenUrls == KeysOf(read, normalize)
      decreases |content| - lastIndex
    {
      var sitemapUrl := Trim(content[m.value.0..m.value.1]);
      var normalizedUrl := normalize(sitemapUrl);
      ReadOne(content, lastIndex, read);
      FirstsSnoc(read, normalize, sitemapUrl);
      if normalizedUrl !in seenUrls {
        sitemaps := sitemaps + [sitemapUrl];
        seenUrls := seenUrls + {normalizedUrl};
      }
      read := read + [sitemapUrl];
      lastIndex := m.value.1;
      m := Exec(content, lastIndex);
    }
    assert Captures(content, lastIndex) == [];
    assert read + [] == read;
  }

  // ---------------------------------------------------------------------------
  // Common locations

  /** What the `try`/`catch` around one probe records: a missing location
      when `axios.head` rejects (a failure or a status outside 2xx), an
      existing one on status 200, nothing on any other 2xx status. */
  function Report(url: string, path: string, probe: Probe): Option<SitemapLocation> {
    if Rejects(probe) then Some(SitemapLocation(url, false, None))
    else if probe.status == 200 then
      Some(SitemapLocation(url, true, Some(Contains(probe.contentType.GetOr(""), "xml") && Contains(path, "index"))))
    else None
  }

  /** A probe is reported missing exactly when axios rejects it (a 404 or a
      500 included), present exactly on status 200, and not at all on any
      other 2xx status; a report names the probed URL, and only a present
      one says whether it is an index. */
  lemma ReportExactly(url: string, path: string, probe: Probe)
    ensures Report(url, path, probe) == Some(SitemapLocation(url, false, None)) <==> Rejects(probe)
    ensures (Report(url, path, probe).Some? && Report(url, path, probe).value.present) <==> (probe.Responded? && probe.status == 200)
    ensures Report(url, path, probe).None? <==> (probe.Responded? && AxiosAccepts(probe.status) && probe.status != 200)
    ensures Report(url, path, probe).Some? ==> Report(url, path, probe).value.url == url
    ensures Report(url, path, probe).Some? ==> (Report(url, path, probe).value.isIndex.Some? <==> Report(url, path, probe).value.present)
  {
  }

  /** A common path that answers 404 is reported missing, like one whose
      request failed. */
  lemma NotFoundReportedMissing(url: string, path: string, contentType: Option<string>)
    ensures Report(url, path, Responded(404, contentType)) == Some(SitemapLocation(url, false, None))
    ensures Report(url, path, Responded(404, contentType)) == Report(url, path, ProbeThrew)
  {
    ReportExactly(url, path, Responded(404, contentType));
  }

  /** The `for` loop over `paths`, starting from the normalised URLs in
      `seen`: a path whose normalised URL was seen is skipped, and an existing
      location is added to the seen set. */
  function Locations(base: string, paths: seq<string>, seen: set<string>, head: string -> Probe, key: string -> string): seq<SitemapLocation>
    decreases |paths|
  {
    if |paths| == 0 then []
    else
      var url := base + paths[0];
      if key(url) in seen then Locations(base, paths[1..], seen, head, key)
      else
        match Report(url, paths[0], head(url))
        case None => Locations(base, paths[1..], seen, head, key)
        case Some(location) =>
          [location] + Locations(base, paths[1..], if location.present then seen + {key(url)} else seen, head, key)
  }

  /** `locations` are reports of some of `paths`, in path order, each the
      report of its own probe. */
  predicate ReportsInOrder(locations: seq<SitemapLocation>, base: string, paths: seq<string>, head: string -> Probe)
    decreases |paths|
  {
    if |locations| == 0 then true
    else if |paths| == 0 then false
    else
      var url := base + paths[0];
      (Report(url, paths[0], head(url)) == Some(locations[0]) && ReportsInOrder(locations[1..], base, paths[1..], head))
      || ReportsInOrder(locations, base, paths[1..], head)
  }

  lemma {:induction false} ReportsBound(locations: seq<SitemapLocation>, base: string, paths: seq<string>, head: string -> Probe)
    requires ReportsInOrder(locations, base, paths, head)
    ensures |locations| <= |paths|
    decreases |paths|
  {
    if |locations| > 0 {
      var url := base + paths[0];
      if Report(url, paths[0], head(url)) == Some(locations[0]) && ReportsInOrder(locations[1..], base, paths[1..], head) {
        ReportsBound(locations[1..], base, paths[1..], head);
      } else {
        ReportsBound(locations, base, paths[1..], head);
      }
    }
  }

  /** Every recorded location is its own probe's report, in path order. */
  lemma {:induction false} LocationsInOrder(base: string, paths: seq<string>, seen: set<string>, head: string -> Probe, key: string -> string)
    ensures ReportsInOrder(Locations(base, paths, seen, head, key), base, paths, head)
    decreases |paths|
  {
    if |paths| > 0 {
      var url := base + paths[0];
      var r := Locations(base, paths, seen, head, key);
      if key(url) in seen || Report(url, paths[0], head(url)).None? {
        LocationsInOrder(base, paths[1..], seen, head, key);
        if |r| > 0 {
          assert ReportsInOrder(r, base, paths[1..], head);
        }
      } else {
        var location := Report(url, paths[0], head(url)).value;
        var seen' := if location.present then seen + {key(url)} else seen;
        LocationsInOrder(base, paths[1..], seen', head, key);
        assert r[1..] == Locations(base, paths[1..], seen', head, key);
      }
    }
  }

  /** No location is recorded for a URL whose normalised form was seen
      before the loop, and an existing one is recorded at most once. */
  lemma {:induction false} LocationsUnseen(base: string, paths: seq<string>, seen: set<string>, head: string -> Probe, key: string -> string)
    ensures forall k :: 0 <= k < |Locations(base, paths, seen, head, key)| ==> key(Locations(base, paths, seen, head, key)[k].url) !in seen
    decreases |paths|
  {
    if |paths| > 0 {
      var url := base + paths[0];
      if key(url) in seen || Report(url, paths[0], head(url)).None? {
        LocationsUnseen(base, paths[1..], seen, head, key);
      } else {
        var location := Report(url, paths[0], head(url)).value;
        var seen' := if location.present then seen + {key(url)} else seen;
        LocationsUnseen(base, paths[1..], seen', head, key);
      }
    }
  }

  /** With paths whose URLs normalise apart, every path not seen before the
      loop whose probe reports something is recorded. */
  lemma {:induction false} LocationsComplete(base: string, paths: seq<string>, seen: set<string>, head: string -> Probe, key: string -> string, j: nat)
    requires forall a, b :: 0 <= a < b < |paths| ==> key(base + paths[a]) != key(base + paths[b])
    requires j < |paths| && key(base + paths[j]) !in seen
    requires Report(base + paths[j], paths[j], head(base + paths[j])).Some?
    ensures Report(base + paths[j], paths[j], head(base + paths[j])).value in Locations(base, paths, seen, head, key)
    decreases |paths|
  {
    var url := base + paths[0];
    if j > 0 {
      var seen' := if Report(url, paths[0], head(url)).Some? && Report(url, paths[0], head(url)).value.present && key(url) !in seen
        then seen + {key(url)} else seen;
      assert paths[1..][j - 1] == paths[j];
      LocationsComplete(base, paths[1..], seen', head, key, j - 1);
    }
  }

  /** A URL made of `https://`, a cleaned domain and a path that does not
      end in `/` normalises to the domain and the path. */
  lemma {:induction false} NormalizePathUrl(clean: string, path: string)
    requires path != [] && path[|path| - 1] != '/'
    ensures NormalizeUrl("https://" + clean + path) == clean + path
  {
    var u := "https://" + clean + path;
    assert u[..8] == "https://";
    assert u[8..] == clean + path;
    assert (clean + path)[|clean + path| - 1] == path[|path| - 1];
  }

  lemma {:induction false} SamePrefixApart(clean: string, a: string, b: string)
    requires a != b
    ensures clean + a != clean + b
  {
    assert (clean + a)[|clean|..] == a;
    assert (clean + b)[|clean|..] == b;
  }

  /** Paths that differ, none empty or ending in `/`, give URLs that
      normalise apart, each to the cleaned domain followed by its path. */
  lemma PathUrlsApart(clean: string, paths: seq<string>)
    requires forall a :: 0 <= a < |paths| ==> paths[a] != [] && paths[a][|paths[a]| - 1] != '/'
    requires forall a, b :: 0 <= a < b < |paths| ==> paths[a] != paths[b]
    ensures forall a :: 0 <= a < |paths| ==> NormalizeUrl("https://" + clean + paths[a]) == clean + paths[a]
    ensures forall a, b :: 0 <= a < b < |paths| ==> NormalizeUrl("https://" + clean + paths[a]) != NormalizeUrl("https://" + clean + paths[b])
  {
    forall a | 0 <= a < |paths|
      ensures NormalizeUrl("https://" + clean + paths[a]) == clean + paths[a]
    {
      NormalizePathUrl(clean, paths[a]);
    }
    forall a, b | 0 <= a < b < |paths|
      ensures clean + paths[a] != clean + paths[b]
    {
      SamePrefixApart(clean, paths[a], paths[b]);
    }
  }

  /** The common paths differ from each other (their lengths do), and each
      ends in `.xml`. */
  lemma CommonPathsWellFormed()
    ensures forall a :: 0 <= a < |COMMON_SITEMAP_PATHS| ==> COMMON_SITEMAP_PATHS[a] != [] && COMMON_SITEMAP_PATHS[a][|COMMON_SITEMAP_PATHS[a]| - 1] != '/'
    ensures forall a, b :: 0 <= a < b < |COMMON_SITEMAP_PATHS| ==> COMMON_SITEMAP_PATHS[a] != COMMON_SITEMAP_PATHS[b]
  {
    forall a, b | 0 <= a < b < |COMMON_SITEMAP_PATHS|
      ensures COMMON_SITEMAP_PATHS[a] != COMMON_SITEMAP_PATHS[b]
    {
      assert |COMMON_SITEMAP_PATHS[a]| != |COMMON_SITEMAP_PATHS[b]|;
    }
  }

  /** The common locations of one run: at most one per common path, in path
      order, each its own probe's report, none for a URL robots.txt already
      named, and one for every other path whose probe reports something. */
  lemma CommonLocationsFacts(domain: string, seen: set<string>, head: string -> Probe)
    ensures |Locations(BaseUrl(domain), COMMON_SITEMAP_PATHS, seen, head, NormalizeUrl)| <= 4
    ensures ReportsInOrder(Locations(BaseUrl(domain), COMMON_SITEMAP_PATHS, seen, head, NormalizeUrl), BaseUrl(domain), COMMON_SITEMAP_PATHS, head)
    ensures forall x :: x in Locations(BaseUrl(domain), COMMON_SITEMAP_PATHS, seen, head, NormalizeUrl) ==> NormalizeUrl(x.url) !in seen
    ensures forall j :: 0 <= j < |COMMON_SITEMAP_PATHS| && NormalizeUrl(domain) + COMMON_SITEMAP_PATHS[j] !in seen
                        && Report(BaseUrl(domain) + COMMON_SITEMAP_PATHS[j], COMMON_SITEMAP_PATHS[j], head(BaseUrl(domain) + COMMON_SITEMAP_PATHS[j])).Some?
                        ==> Report(BaseUrl(domain) + COMMON_SITEMAP_PATHS[j], COMMON_SITEMAP_PATHS[j], head(BaseUrl(domain) + COMMON_SITEMAP_PATHS[j])).value
                            in Locations(BaseUrl(domain), COMMON_SITEMAP_PATHS, seen, head, NormalizeUrl)
  {
    var base := BaseUrl(domain);
    var r := Locations(base, COMMON_SITEMAP_PATHS, seen, head, NormalizeUrl);
    LocationsInOrder(base, COMMON_SITEMAP_PATHS, seen, head, NormalizeUrl);
    ReportsBound(r, base, COMMON_SITEMAP_PATHS, head);
    LocationsUnseen(base, COMMON_SITEMAP_PATHS, seen, head, NormalizeUrl);
    CommonPathsWellFormed();
    PathUrlsApart(NormalizeUrl(domain), COMMON_SITEMAP_PATHS);
    forall j | 0 <= j < |COMMON_SITEMAP_PATHS| && NormalizeUrl(domain) + COMMON_SITEMAP_PATHS[j] !in seen
               && Report(base + COMMON_SITEMAP_PATHS[j], COMMON_SITEMAP_PATHS[j], head(base + COMMON_SITEMAP_PATHS[j])).Some?
      ensures Report(base + COMMON_SITEMAP_PATHS[j], COMMON_SITEMAP_PATHS[j], head(base + COMMON_SITEMAP_PATHS[j])).value in r
    {
      LocationsComplete(base, COMMON_SITEMAP_PATHS, seen, head, NormalizeUrl, j);
    }
  }

  /** A path of the loop whose URL was seen, or whose probe was accepted
      with a status other than 200, adds nothing and leaves the seen set as
      it was. */
  lemma StepSkipped(base: string, paths: seq<string>, i: nat, seen: set<string>, head: string -> Probe, key: string -> string)
    requires i < |paths|
    requires key(base + paths[i]) in seen || (!Rejects(head(base + paths[i])) && head(base + paths[i]).status != 200)
    ensures Locations(base, paths[i..], seen, head, key) == Locations(base, paths[i + 1..], seen, head, key)
  {
    assert paths[i..][0] == paths[i];
    assert paths[i..][1..] == paths[i + 1..];
  }

  /** A path of the loop whose URL was not seen and whose probe was rejected
      adds a missing location and leaves the seen set as it was. */
  lemma StepRejected(base: string, paths: seq<string>, i: nat, seen: set<string>, head: string -> Probe, key: string -> string)
    requires i < |paths|
    requires key(base + paths[i]) !in seen && Rejects(head(base + paths[i]))
    ensures Locations(base, paths[i..], seen, head, key)
         == [SitemapLocation(base + paths[i], false, None)] + Locations(base, paths[i + 1..], seen, head, key)
  {
    assert paths[i..][0] == paths[i];
    assert paths[i..][1..] == paths[i + 1..];
  }

  /** A path of the loop whose URL was not seen and whose probe answered 200
      adds a present location and marks the URL seen. */
  lemma StepFound(base: string, paths: seq<string>, i: nat, seen: set<string>, head: string -> Probe, key: string -> string)
    requires i < |paths|
    requires key(base + paths[i]) !in seen && !Rejects(head(base + paths[i])) && head(base + paths[i]).status == 200
    ensures Locations(base, paths[i..], seen, head, key)
         == [SitemapLocation(base + paths[i], true, Some(Contains(head(base + paths[i]).contentType.GetOr(""), "xml") && Contains(paths[i], "index")))]
            + Locations(base, paths[i + 1..], seen + {key(base + paths[i])}, head, key)
  {
    assert paths[i..][0] == paths[i];
    assert paths[i..][1..] == paths[i + 1..];
  }

  /** The `for (const path of COMMON_SITEMAP_PATHS)` loop; at its one call
      `paths` is `COMMON_SITEMAP_PATHS` and `key` is `NormalizeUrl`. */
  method ProbeCommonPaths(baseUrl: string, paths: seq<string>, seen: set<string>, head: string -> Probe, key: string -> string) returns (commonLocations: seq<SitemapLocation>)
    ensures commonLocations == Locations(baseUrl, paths, seen, head, key)
  {
    commonLocations := [];
    var seenUrls := seen;
    for i := 0 to |paths|
      invariant commonLocations + Locations(baseUrl, paths[i..], seenUrls, head, key) == Locations(baseUrl, paths, seen, head, key)
    {
      var path := paths[i];
      var url := baseUrl + path;
      var normalizedUrl := key(url);
      if normalizedUrl in seenUrls {
        StepSkipped(baseUrl, paths, i, seenUrls, head, key);
        continue;
      }
      var probe := head(url);
      if Rejects(probe) {
        var location := SitemapLocation(url, false, None);
        StepRejected(baseUrl, paths, i, seenUrls, head, key);
        Batching.Associative(commonLocations, [location], Locations(baseUrl, paths[i + 1..], seenUrls, head, key));
        commonLocations := commonLocations + [location];
      } else {
        var present := probe.status == 200;
        if present {
          var location := SitemapLocation(url, present, Some(Contains(probe.contentType.GetOr(""), "xml") && Contains(path, "index")));
          StepFound(baseUrl, paths, i, seenUrls, head, key);
          Batching.Associative(commonLocations, [location], Locations(baseUrl, paths[i + 1..], seenUrls + {normalizedUrl}, head, key));
          commonLocations := commonLocations + [location];
          seenUrls := seenUrls + {normalizedUrl};
        } else {
          StepSkipped(baseUrl, paths, i, seenUrls, head, key);
        }
      }
    }
  }

  // ---------------------------------------------------------------------------
  // findSitemaps

  /** `findSitemaps`: a throw from the robots.txt request leaves both lists
      empty with the error; otherwise the deduplicated robots.txt values and
      the common locations not already named there. */
  method FindSitemaps(domain: string, get: string -> Fetch, head: string -> Probe) returns (r: FoundSitemaps)
    ensures get(RobotsUrl(domain)).Threw? ==>
      r == FoundSitemaps([], [], Some(ErrorText(get(RobotsUrl(domain)).message, "Failed to check sitemap locations")))
    ensures get(RobotsUrl(domain)).Fetched? ==>
      r == FoundSitemaps(Firsts(SitemapValues(get(RobotsUrl(domain)).body), NormalizeUrl),
                         Locations(BaseUrl(domain), COMMON_SITEMAP_PATHS, KeysOf(SitemapValues(get(RobotsUrl(domain)).body), NormalizeUrl), head, NormalizeUrl),
                         None)
  {
    var cleanDomain := NormalizeUrl(domain);
    var baseUrl := "https://" + cleanDomain;
    var robotsTxtUrl := baseUrl + "/robots.txt";
    match get(robotsTxtUrl)
    case Threw(message) =>
      r := FoundSitemaps([], [], Some(ErrorText(message, "Failed to check sitemap locations")));
    case Fetched(robotsTxtContent) =>
      var sitemapsFromRobots, seenUrls := ReadRobotsSitemaps(robotsTxtContent, NormalizeUrl);
      var commonLocations := ProbeCommonPaths(baseUrl, COMMON_SITEMAP_PATHS, seenUrls, head, NormalizeUrl);
      r := FoundSitemaps(sitemapsFromRobots, commonLocations, None);
  }
}
