/** `Sitemap:` records of a robots.txt file (an "other record" in the sense
    of section 2.2.4 of RFC 9309), as the multiline regular expression
    `/^Sitemap:\s*(.+)$/gm` finds them, the URL normalisation both sitemap
    finders share, and `findSitemapsInRobotsTxt`. */
module RobotsTxt {
  import opened Wrappers
  import opened Text
  import Batching

  const SITEMAP_FIELD := "Sitemap:"

  // ---------------------------------------------------------------------------
  // normalizeUrl: `url.replace(/^https?:\/\//, '').replace(/\/$/, '')`

  /** Drop one leading `https://` or `http://`. */
  function StripScheme(u: string): (r: string)
    ensures u == "https://" + r || u == "http://" + r || (r == u && !StartsWith(u, "https://") && !StartsWith(u, "http://"))
  {
    if StartsWith(u, "https://") then u[8..]
    else if StartsWith(u, "http://") then u[7..]
    else u
  }

  /** Drop one trailing `/`. */
  function StripSlash(u: string): (r: string)
    ensures u == r + "/" || (r == u && (u == [] || u[|u| - 1] != '/'))
  {
    if u != [] && u[|u| - 1] == '/' then u[..|u| - 1] else u
  }

  function NormalizeUrl(u: string): string {
    StripSlash(StripScheme(u))
  }

  /** Both schemes normalise alike, to the rest of the URL without its final
      slash. */
  lemma {:induction false} SchemesNormaliseAlike(d: string)
    ensures NormalizeUrl("http://" + d) == NormalizeUrl("https://" + d) == StripSlash(d)
  {
    assert ("http://" + d)[7..] == d;
    assert ("https://" + d)[8..] == d;
    assert !StartsWith("http://" + d, "https://") by {
      assert ("http://" + d)[4] != "https://"[4];
    }
  }

  /** Only one scheme and one slash go, whatever the rest looks like. */
  lemma {:induction false} NormalizeOnce(d: string)
    ensures NormalizeUrl("https://" + d + "/") == d
  {
    var u := "https://" + d + "/";
    assert u[8..] == d + "/";
    assert (d + "/")[..|d|] == d;
  }

  // ---------------------------------------------------------------------------
  // The regular expression, position by position

  /** `^` in multiline mode: the start of the input or just after a line
      terminator. */
  predicate LineStart(s: string, i: nat) {
    i == 0 || (0 < i <= |s| && IsLineTerminator(s[i - 1]))
  }

  /** The first line terminator at or after `p`, or the end of the input:
      where `.+` stops and `$` matches. */
  function LineEnd(s: string, p: nat): (e: nat)
    requires p <= |s|
    ensures p <= e <= |s|
    ensures e < |s| ==> IsLineTerminator(s[e])
    decreases |s| - p
  {
    if p == |s| || IsLineTerminator(s[p]) then p else LineEnd(s, p + 1)
  }

  /** Where a greedy `\s*` from `p` stops. */
  function SpaceRunEnd(s: string, p: nat): (q: nat)
    requires p <= |s|
    ensures p <= q <= |s|
    ensures q < |s| ==> !IsSpace(s[q])
    decreases |s| - p
  {
    if p == |s| || !IsSpace(s[p]) then p else SpaceRunEnd(s, p + 1)
  }

  /** No line terminator comes before the line end. */
  lemma {:induction false} InsideLine(s: string, p: nat, k: nat)
    requires p <= |s| && p <= k < LineEnd(s, p)
    ensures !IsLineTerminator(s[k])
    decreases k - p
  {
    if p < k {
      InsideLine(s, p + 1, k);
    }
  }

  /** Everything before the end of the run is whitespace. */
  lemma {:induction false} InsideSpaceRun(s: string, p: nat, k: nat)
    requires p <= |s| && p <= k < SpaceRunEnd(s, p)
    ensures IsSpace(s[k])
    decreases k - p
  {
    if p < k {
      InsideSpaceRun(s, p + 1, k);
    }
  }

  /** The last position in `[p, q)` that `.` can match. */
  function LastNonTerminator(s: string, p: nat, q: nat): (r: Option<nat>)
    requires p <= q <= |s|
    ensures r.Some? ==> p <= r.value < q && !IsLineTerminator(s[r.value])
    decreases q - p
  {
    if q == p then None
    else if !IsLineTerminator(s[q - 1]) then Some(q - 1)
    else LastNonTerminator(s, p, q - 1)
  }

  /** `\s*(.+)$` tried at `p`: the bounds of the capture. The greedy `\s*`
      takes the whole whitespace run, line breaks included; only when that run
      reaches the end of the input does it give characters back, until `.+`
      can take one. */
  function ValueAt(s: string, p: nat): (r: Option<(nat, nat)>)
    requires p <= |s|
    ensures r.Some? ==> p <= r.value.0 < r.value.1 <= |s|
  {
    var q := SpaceRunEnd(s, p);
    if q < |s| then Some((q, LineEnd(s, q)))
    else match LastNonTerminator(s, p, q)
      case None => None
      case Some(k) => Some((k, LineEnd(s, k)))
  }

  /** The match starting at `i`, as the bounds of its capture `match[1]`; the
      match itself ends where the capture does. */
  function MatchAt(s: string, i: nat): (r: Option<(nat, nat)>)
    requires i <= |s|
    ensures r.Some? ==> i + |SITEMAP_FIELD| <= r.value.0 < r.value.1 <= |s|
  {
    if LineStart(s, i) && StartsWith(s[i..], SITEMAP_FIELD) then ValueAt(s, i + |SITEMAP_FIELD|) else None
  }

  /** `sitemapRegex.exec(content)` with `lastIndex` at `from`: the first match
      that starts at or after `from`. */
  function Exec(s: string, from: nat): (r: Option<(nat, nat)>)
    requires from <= |s|
    ensures r.Some? ==> from < r.value.0 < r.value.1 <= |s|
    decreases |s| - from
  {
    if from == |s| then None
    else match MatchAt(s, from)
      case Some(m) => Some(m)
      case None => Exec(s, from + 1)
  }

  /** `match[1].trim()` of every match from `from` on; each search resumes
      where the previous match ended. */
  function Captures(s: string, from: nat): seq<string>
    requires from <= |s|
    decreases |s| - from
  {
    match Exec(s, from)
    case None => []
    case Some(m) => [Trim(s[m.0..m.1])] + Captures(s, m.1)
  }

  lemma {:induction false} NextCapture(s: string, from: nat)
    requires from <= |s| && Exec(s, from).Some?
    ensures Captures(s, from) == [Trim(s[Exec(s, from).value.0..Exec(s, from).value.1])] + Captures(s, Exec(s, from).value.1)
  {
  }

  /** What the `exec` loop of both finders reads. */
  function SitemapValues(content: string): seq<string> {
    Captures(content, 0)
  }

  /** The `while ((match = sitemapRegex.exec(robotsTxtContent)) !== null)`
      loop of `findSitemapsInRobotsTxt`. */
  method CollectSitemaps(content: string) returns (sitemaps: seq<string>)
    ensures sitemaps == SitemapValues(content)
  {
    sitemaps := [];
    var lastIndex := 0;
    var m := Exec(content, lastIndex);
    while m.Some?
      invariant lastIndex <= |content|
      invariant m == Exec(content, lastIndex)
      invariant sitemaps + Captures(content, lastIndex) == SitemapValues(content)
      decreases |content| - lastIndex
    {
      var value := content[m.value.0..m.value.1];
      NextCapture(content, lastIndex);
      Batching.Associative(sitemaps, [Trim(value)], Captures(content, m.value.1));
      sitemaps := sitemaps + [Trim(value)];
      lastIndex := m.value.1;
      m := Exec(content, lastIndex);
    }
  }

  // ---------------------------------------------------------------------------
  // findSitemapsInRobotsTxt

  /** The outcome of `axios.get`: the body, or a throw carrying an `Error`'s
      message (None for a thrown value that is not an `Error`). */
  datatype Fetch = Fetched(body: string) | Threw(message: Option<string>)

  datatype RobotsParserResult = RobotsParserResult(sitemaps: seq<string>, error: Option<string>)

  /** `'https://' + cleanDomain + '/robots.txt'`. */
  function RobotsUrl(domain: string): string {
    "https://" + NormalizeUrl(domain) + "/robots.txt"
  }

  /** `error instanceof Error ? error.message : fallback`. */
  function ErrorText(message: Option<string>, fallback: string): string {
    message.GetOr(fallback)
  }

  /** `findSitemapsInRobotsTxt`, the network given as `get`. */
  method FindSitemapsInRobotsTxt(domain: string, get: string -> Fetch) returns (r: RobotsParserResult)
    ensures get(RobotsUrl(domain)).Fetched? ==> r == RobotsParserResult(SitemapValues(get(RobotsUrl(domain)).body), None)
    ensures get(RobotsUrl(domain)).Threw? ==> r == RobotsParserResult([], Some(ErrorText(get(RobotsUrl(domain)).message, "Failed to fetch robots.txt")))
  {
    var cleanDomain := NormalizeUrl(domain);
    var robotsUrl := "https://" + cleanDomain + "/robots.txt";
    match get(robotsUrl)
    case Threw(message) =>
      r := RobotsParserResult([], Some(ErrorText(message, "Failed to fetch robots.txt")));
    case Fetched(content) =>
      var sitemaps := CollectSitemaps(content);
      r := RobotsParserResult(sitemaps, None);
  }

  // ---------------------------------------------------------------------------
  // Line by line: what the expression reads in a file without blank fields

  /** A line's `Sitemap:` value, when it has one that is not blank. */
  function LineValue(line: string): Option<string> {
    if StartsWith(line, SITEMAP_FIELD) && !AllSpace(line[|SITEMAP_FIELD|..]) then Some(Trim(line[|SITEMAP_FIELD|..]))
    else None
  }

  function LineHere(line: string): seq<string> {
    match LineValue(line)
    case Some(v) => [v]
    case None => []
  }

  /** What the line that starts at `i` contributes. */
  function LineAt(s: string, i: nat): seq<string>
    requires i <= |s|
  {
    LineHere(s[i..LineEnd(s, i)])
  }

  /** The values of the lines from the one that starts at `i` on, in file
      order. */
  function LinesFrom(s: string, i: nat): seq<string>
    requires i <= |s|
    decreases |s| - i
  {
    if LineEnd(s, i) < |s| then LineAt(s, i) + LinesFrom(s, LineEnd(s, i) + 1)
    else LineAt(s, i)
  }

  /** Each line that starts with `Sitemap:` and has a value, its value trimmed,
      in file order, duplicates kept: the evident reading of the expression.
      `[ \t]*` in place of `\s*` would give the same, except on a field of
      blanks only, where it would capture the last blank and yield "". */
  function LineSitemaps(s: string): seq<string> {
    LinesFrom(s, 0)
  }

  /** The line from `i`, if it is a `Sitemap:` line, has a value. */
  predicate FieldNotBlank(s: string, i: nat)
    requires i <= |s|
  {
    LineStart(s, i) && StartsWith(s[i..], SITEMAP_FIELD) ==> !AllSpace(s[i + |SITEMAP_FIELD|..LineEnd(s, i)])
  }

  /** No `Sitemap:` line whose value is blank. */
  predicate NoBlankField(s: string) {
    forall i :: 0 <= i <= |s| ==> FieldNotBlank(s, i)
  }

  /** Positions without a match are passed over. */
  lemma {:induction false} SkipTo(s: string, from: nat, to: nat)
    requires from <= to <= |s|
    requires forall j :: from <= j < to ==> MatchAt(s, j).None?
    ensures Exec(s, from) == Exec(s, to)
    decreases (to as int) - from
  {
    if from < to {
      SkipTo(s, from + 1, to);
    }
  }

  lemma {:induction false} LineEndFrom(s: string, p: nat, q: nat)
    requires p <= |s| && p <= q <= LineEnd(s, p)
    ensures LineEnd(s, q) == LineEnd(s, p)
    decreases q - p
  {
    if p < q {
      LineEndFrom(s, p + 1, q);
    }
  }

  /** On a line whose rest is not blank, the capture is that rest from its
      first non-blank character to the end of the line. */
  lemma {:induction false} ValueOnLine(s: string, p: nat)
    requires p <= |s| && !AllSpace(s[p..LineEnd(s, p)])
    ensures ValueAt(s, p).Some? && ValueAt(s, p).value.1 == LineEnd(s, p)
    ensures Trim(s[ValueAt(s, p).value.0..ValueAt(s, p).value.1]) == Trim(s[p..LineEnd(s, p)])
  {
    var e := LineEnd(s, p);
    var q := SpaceRunEnd(s, p);
    var f :| 0 <= f < |s[p..e]| && !IsSpace(s[p..e][f]);
    assert !IsSpace(s[p + f]);
    if p + f < q {
      InsideSpaceRun(s, p, p + f);
    }
    LineEndFrom(s, p, q);
    forall k | 0 <= k < q - p
      ensures IsSpace(s[p..q][k])
    {
      InsideSpaceRun(s, p, p + k);
    }
    assert s[p..e] == s[p..q] + s[q..e] + [];
    TrimIgnoresPadding(s[p..q], s[q..e], []);
  }

  /** Nothing matches inside a line or at its terminator, except at its start. */
  lemma {:induction false} NoMatchAfterStart(s: string, i: nat)
    requires i <= |s|
    ensures forall j :: i < j <= LineEnd(s, i) && j < |s| ==> MatchAt(s, j).None?
  {
    forall j | i < j <= LineEnd(s, i) && j < |s|
      ensures MatchAt(s, j).None?
    {
      if j < LineEnd(s, i) {
        InsideLine(s, i, j - 1);
      } else {
        assert s[j..][0] == s[j];
        assert !StartsWith(s[j..], SITEMAP_FIELD);
      }
    }
  }

  /** After a line the search resumes at the start of the next one. */
  lemma {:induction false} CapturesAfterLine(s: string, e: nat)
    requires e <= |s| && (e < |s| ==> IsLineTerminator(s[e]))
    ensures e < |s| ==> Captures(s, e) == Captures(s, e + 1)
    ensures e == |s| ==> Captures(s, e) == []
  {
    if e < |s| {
      assert s[e..][0] == s[e];
      assert MatchAt(s, e).None?;
      SkipTo(s, e, e + 1);
    } else {
      assert Exec(s, e) == None;
    }
  }

  /** The field name lies within its line. */
  lemma {:induction false} FieldWithinLine(s: string, i: nat)
    requires i <= |s| && StartsWith(s[i..], SITEMAP_FIELD)
    ensures i + |SITEMAP_FIELD| <= LineEnd(s, i)
    ensures LineEnd(s, i + |SITEMAP_FIELD|) == LineEnd(s, i)
    ensures StartsWith(s[i..LineEnd(s, i)], SITEMAP_FIELD)
    ensures s[i..LineEnd(s, i)][|SITEMAP_FIELD|..] == s[i + |SITEMAP_FIELD|..LineEnd(s, i)]
  {
    var e := LineEnd(s, i);
    var n := |SITEMAP_FIELD|;
    forall k | i <= k < i + n
      ensures !IsLineTerminator(s[k])
    {
      assert s[k] == s[i..][k - i];
    }
    assert s[i..e][..n] == s[i..][..n];
    LineEndFrom(s, i, i + n);
  }

  /** A `Sitemap:` line matches at its start, up to its end, and the capture
      trims to the line's value. */
  lemma {:induction false} FieldLine(s: string, i: nat)
    requires i <= |s| && LineStart(s, i) && NoBlankField(s) && StartsWith(s[i..], SITEMAP_FIELD)
    ensures Exec(s, i).Some? && Exec(s, i).value.1 == LineEnd(s, i)
    ensures LineValue(s[i..LineEnd(s, i)]) == Some(Trim(s[Exec(s, i).value.0..LineEnd(s, i)]))
  {
    var e := LineEnd(s, i);
    var n := |SITEMAP_FIELD|;
    FieldWithinLine(s, i);
    var value := s[i + n..e];
    assert FieldNotBlank(s, i);
    ValueOnLine(s, i + n);
    var m := ValueAt(s, i + n).value;
    assert MatchAt(s, i) == Some(m);
    assert Exec(s, i) == Some(m);
    assert LineValue(s[i..e]) == Some(Trim(value));
  }

  /** Any other line matches nowhere and has no value. */
  lemma {:induction false} OtherLine(s: string, i: nat)
    requires i <= |s| && LineStart(s, i) && !StartsWith(s[i..], SITEMAP_FIELD)
    ensures LineAt(s, i) == [] && Exec(s, i) == Exec(s, LineEnd(s, i))
  {
    var e := LineEnd(s, i);
    NoMatchAfterStart(s, i);
    SkipTo(s, i, e);
  }

  /** The captures from the line at `i` on: its own, if it has a value,
      then those from its end. */
  lemma {:induction false} LineCaptures(s: string, i: nat)
    requires i <= |s| && LineStart(s, i) && NoBlankField(s)
    ensures Captures(s, i) == LineAt(s, i) + Captures(s, LineEnd(s, i))
  {
    if StartsWith(s[i..], SITEMAP_FIELD) {
      FieldCaptures(s, i);
    } else {
      OtherLine(s, i);
      assert Captures(s, i) == Captures(s, LineEnd(s, i));
      assert LineAt(s, i) + Captures(s, LineEnd(s, i)) == Captures(s, LineEnd(s, i));
    }
  }

  lemma {:induction false} FieldCaptures(s: string, i: nat)
    requires i <= |s| && LineStart(s, i) && NoBlankField(s) && StartsWith(s[i..], SITEMAP_FIELD)
    ensures Captures(s, i) == LineAt(s, i) + Captures(s, LineEnd(s, i))
  {
    var e := LineEnd(s, i);
    FieldLine(s, i);
    var m := Exec(s, i).value;
    HereOfValue(s[i..e], Trim(s[m.0..e]));
    LineAtIs(s, i);
    NextCapture(s, i);
  }

  lemma {:induction false} LineAtIs(s: string, i: nat)
    requires i <= |s|
    ensures LineAt(s, i) == LineHere(s[i..LineEnd(s, i)])
  {
  }

  lemma {:induction false} HereOfValue(line: string, v: string)
    requires LineValue(line) == Some(v)
    ensures LineHere(line) == [v]
  {
  }

  /** In a file with no blank `Sitemap:` field, the expression reads exactly
      the line-by-line values: every `Sitemap:` line contributes its trimmed
      value, in file order and with repeats, and no other line contributes. */
  lemma {:induction false} LinesAgree(s: string, i: nat)
    requires i <= |s| && LineStart(s, i) && NoBlankField(s)
    ensures Captures(s, i) == LinesFrom(s, i)
    decreases |s| - i, 2
  {
    if LineEnd(s, i) < |s| {
      AgreeStep(s, i);
    } else {
      AgreeLast(s, i);
    }
  }

  /** A line followed by a line break. */
  lemma {:induction false} AgreeStep(s: string, i: nat)
    requires i <= |s| && LineStart(s, i) && NoBlankField(s) && LineEnd(s, i) < |s|
    ensures Captures(s, i) == LinesFrom(s, i)
    decreases |s| - i, 1
  {
    LineCaptures(s, i);
    RestAgree(s, LineEnd(s, i));
    LinesNext(s, i);
    Glue(Captures(s, i), LineAt(s, i), Captures(s, LineEnd(s, i)), LinesFrom(s, LineEnd(s, i) + 1), LinesFrom(s, i));
  }

  /** The last line. */
  lemma {:induction false} AgreeLast(s: string, i: nat)
    requires i <= |s| && LineStart(s, i) && LineEnd(s, i) == |s| && NoBlankField(s)
    ensures Captures(s, i) == LinesFrom(s, i)
  {
    var e := LineEnd(s, i);
    LineCaptures(s, i);
    CapturesAfterLine(s, e);
    LinesLast(s, i);
    Glue(Captures(s, i), LineAt(s, i), Captures(s, e), [], LinesFrom(s, i));
  }

  /** The induction step: from a line break on, the two agree. */
  lemma {:induction false} RestAgree(s: string, e: nat)
    requires e < |s| && IsLineTerminator(s[e]) && NoBlankField(s)
    ensures Captures(s, e) == LinesFrom(s, e + 1)
    decreases |s| - e, 0
  {
    CapturesAfterLine(s, e);
    LinesAgree(s, e + 1);
  }

  /** Equals appended to the same head stay equal. */
  lemma {:induction false} Glue(c: seq<string>, h: seq<string>, cr: seq<string>, vr: seq<string>, v: seq<string>)
    requires c == h + cr && cr == vr && v == h + vr
    ensures c == v
  {
  }

  lemma {:induction false} LinesNext(s: string, i: nat)
    requires i <= |s| && LineEnd(s, i) < |s|
    ensures LinesFrom(s, i) == LineAt(s, i) + LinesFrom(s, LineEnd(s, i) + 1)
  {
  }

  lemma {:induction false} LinesLast(s: string, i: nat)
    requires i <= |s| && LineEnd(s, i) == |s|
    ensures LinesFrom(s, i) == LineAt(s, i) + []
  {
  }

  lemma {:induction false} ValuesByLine(s: string)
    requires NoBlankField(s)
    ensures SitemapValues(s) == LineSitemaps(s)
  {
    LinesAgree(s, 0);
  }

  /** As written, `\s*` crosses a line break: a `Sitemap:` line with no value
      takes the whole next line as its value, whatever that line says. */
  lemma {:induction false} BlankFieldTakesNextLine(t: char, line: string)
    requires IsLineTerminator(t) && line != [] && !IsSpace(line[0])
    requires forall k :: 0 <= k < |line| ==> !IsLineTerminator(line[k])
    requires !StartsWith(line, SITEMAP_FIELD)
    ensures SitemapValues(SITEMAP_FIELD + [t] + line) == [Trim(line)]
    ensures LineSitemaps(SITEMAP_FIELD + [t] + line) == []
  {
    BlankFieldCapture(t, line);
    BlankFieldLines(t, line);
  }

  lemma {:induction false} BlankFieldCapture(t: char, line: string)
    requires IsLineTerminator(t) && line != [] && !IsSpace(line[0])
    requires forall k :: 0 <= k < |line| ==> !IsLineTerminator(line[k])
    ensures SitemapValues(SITEMAP_FIELD + [t] + line) == [Trim(line)]
  {
    var s := SITEMAP_FIELD + [t] + line;
    var n := |SITEMAP_FIELD|;
    assert s[0..][..n] == SITEMAP_FIELD;
    assert SpaceRunEnd(s, n + 1) == n + 1;
    assert SpaceRunEnd(s, n) == n + 1;
    LineEndFrom(s, n + 1, |s|) by {
      assert forall k :: n + 1 <= k < |s| ==> s[k] == line[k - n - 1];
    }
    assert MatchAt(s, 0) == Some((n + 1, |s|));
    assert s[n + 1..|s|] == line;
    assert Captures(s, |s|) == [];
  }

  lemma {:induction false} BlankFieldLines(t: char, line: string)
    requires IsLineTerminator(t)
    requires forall k :: 0 <= k < |line| ==> !IsLineTerminator(line[k])
    requires !StartsWith(line, SITEMAP_FIELD)
    ensures LineSitemaps(SITEMAP_FIELD + [t] + line) == []
  {
    var s := SITEMAP_FIELD + [t] + line;
    var n := |SITEMAP_FIELD|;
    assert LineEnd(s, 0) == n by {
      LineEndFrom(s, 0, n);
    }
    assert s[0..n] == SITEMAP_FIELD;
    assert LineValue(s[0..n]) == None;
    assert LineEnd(s, n + 1) == |s| by {
      assert forall k :: n + 1 <= k < |s| ==> s[k] == line[k - n - 1];
      LineEndFrom(s, n + 1, |s|);
    }
    assert s[n + 1..|s|] == line;
    assert LinesFrom(s, n + 1) == [];
  }

  /** A blank field at the very end of the file still matches: `\s*` gives
      back one blank for `.+`, and the trimmed value is empty. */
  lemma {:induction false} BlankFieldAtEndGivesEmpty(w: string)
    requires w != []
    requires forall k :: 0 <= k < |w| ==> IsSpace(w[k]) && !IsLineTerminator(w[k])
    ensures SitemapValues(SITEMAP_FIELD + w) == [""]
  {
    var s := SITEMAP_FIELD + w;
    var n := |SITEMAP_FIELD|;
    assert forall k :: n <= k < |s| ==> s[k] == w[k - n];
    assert s[0..][..n] == SITEMAP_FIELD;
    assert SpaceRunEnd(s, n) == |s| by {
      SpacesToEnd(s, n);
    }
    assert LastNonTerminator(s, n, |s|) == Some(|s| - 1);
    assert LineEnd(s, |s| - 1) == |s|;
    assert MatchAt(s, 0) == Some((|s| - 1, |s|));
    assert AllSpace(s[|s| - 1..|s|]);
    TrimBlank(s[|s| - 1..|s|]);
    assert Captures(s, |s|) == [];
  }

  lemma {:induction false} SpacesToEnd(s: string, p: nat)
    requires p <= |s| && forall k :: p <= k < |s| ==> IsSpace(s[k])
    ensures SpaceRunEnd(s, p) == |s|
    decreases |s| - p
  {
    if p < |s| {
      SpacesToEnd(s, p + 1);
    }
  }
}
