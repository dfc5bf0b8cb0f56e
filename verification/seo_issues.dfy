/** The SEO checks the analyze route runs on every fetched page: a missing or
    over-long title and a missing or over-long meta description, judged on the
    trimmed text. */
module SeoIssues {
  import opened Wrappers
  import opened Text

  const MISSING_TITLE := "Missing title"
  const MISSING_DESCRIPTION := "Missing meta description"
  const TITLE_TOO_LONG := "Title too long (>60 chars)"
  const DESCRIPTION_TOO_LONG := "Meta description too long (>160 chars)"

  const MAX_TITLE_LENGTH := 60
  const MAX_DESCRIPTION_LENGTH := 160

  /** The issue codes in the order the checks run. */
  const CHECK_ORDER := [MISSING_TITLE, MISSING_DESCRIPTION, TITLE_TOO_LONG, DESCRIPTION_TOO_LONG]

  /** A page passes when it has no issue and fails otherwise. */
  datatype Verdict = Pass | Fail

  function VerdictOf(issues: seq<string>): Verdict {
    if |issues| > 0 then Fail else Pass
  }

  /** The trimmed description: `attr('content')?.trim() || ''`. */
  function TrimmedAttribute(content: Option<string>): string {
    match content
    case None => ""
    case Some(c) => Trim(c)
  }

  /** The four checks, in order, on an already trimmed title and description;
      lengths are `.length`, in UTF-16 code units. */
  function Classify(title: string, description: string): seq<string> {
    (if title == "" then [MISSING_TITLE] else [])
    + (if description == "" then [MISSING_DESCRIPTION] else [])
    + (if title != "" && Utf16Length(title) > MAX_TITLE_LENGTH then [TITLE_TOO_LONG] else [])
    + (if description != "" && Utf16Length(description) > MAX_DESCRIPTION_LENGTH then [DESCRIPTION_TOO_LONG] else [])
  }

  /** The issues of a page, from the raw `<title>` text and the raw description attribute. */
  function PageIssues(titleText: string, description: Option<string>): seq<string> {
    Classify(Trim(titleText), TrimmedAttribute(description))
  }

  /** The checks as the route runs them: each failed check pushes its code. */
  method CollectIssues(title: string, description: string) returns (issues: seq<string>)
    ensures issues == Classify(title, description)
    ensures |issues| <= 2
    ensures issues == [] <==>
      (title != "" && description != "" && Utf16Length(title) <= MAX_TITLE_LENGTH && Utf16Length(description) <= MAX_DESCRIPTION_LENGTH)
  {
    issues := [];
    if title == "" {
      issues := issues + [MISSING_TITLE];
    }
    if description == "" {
      issues := issues + [MISSING_DESCRIPTION];
    }
    if title != "" && Utf16Length(title) > MAX_TITLE_LENGTH {
      issues := issues + [TITLE_TOO_LONG];
    }
    if description != "" && Utf16Length(description) > MAX_DESCRIPTION_LENGTH {
      issues := issues + [DESCRIPTION_TOO_LONG];
    }
  }

  /** `a` is `b` with some elements left out, order kept. */
  predicate IsSubsequence(a: seq<string>, b: seq<string>)
    decreases |b|
  {
    if a == [] then true
    else if b == [] then false
    else if a[0] == b[0] then IsSubsequence(a[1..], b[1..])
    else IsSubsequence(a, b[1..])
  }

  /** Each issue is reported when, and only when, its condition holds on the trimmed text. */
  lemma ClassifyExactly(title: string, description: string)
    ensures MISSING_TITLE in Classify(title, description) <==> title == ""
    ensures MISSING_DESCRIPTION in Classify(title, description) <==> description == ""
    ensures TITLE_TOO_LONG in Classify(title, description) <==> Utf16Length(title) > MAX_TITLE_LENGTH
    ensures DESCRIPTION_TOO_LONG in Classify(title, description) <==> Utf16Length(description) > MAX_DESCRIPTION_LENGTH
  {
  }

  /** The issues come in check order, each at most once. */
  lemma {:induction false} ClassifyInCheckOrder(title: string, description: string)
    ensures IsSubsequence(Classify(title, description), CHECK_ORDER)
  {
    var t0 := if title == "" then [MISSING_TITLE] else [];
    var d0 := if description == "" then [MISSING_DESCRIPTION] else [];
    var t1 := if title != "" && Utf16Length(title) > MAX_TITLE_LENGTH then [TITLE_TOO_LONG] else [];
    var d1 := if description != "" && Utf16Length(description) > MAX_DESCRIPTION_LENGTH then [DESCRIPTION_TOO_LONG] else [];
    var tail3 := CHECK_ORDER[3..];
    var tail2 := CHECK_ORDER[2..];
    var tail1 := CHECK_ORDER[1..];
    assert IsSubsequence(d1, tail3);
    assert tail2[1..] == tail3;
    assert IsSubsequence(t1 + d1, tail2) by {
      if t1 == [] {
        assert t1 + d1 == d1;
        assert d1 == [] || d1[0] != tail2[0];
      } else {
        assert (t1 + d1)[1..] == d1;
      }
    }
    assert tail1[1..] == tail2;
    assert IsSubsequence(d0 + t1 + d1, tail1) by {
      if d0 == [] {
        assert d0 + t1 + d1 == t1 + d1;
        assert t1 + d1 == [] || (t1 + d1)[0] != tail1[0];
      } else {
        assert (d0 + t1 + d1)[1..] == t1 + d1;
      }
    }
    assert CHECK_ORDER[1..] == tail1;
    if t0 == [] {
      assert t0 + d0 + t1 + d1 == d0 + t1 + d1;
      assert d0 + t1 + d1 == [] || (d0 + t1 + d1)[0] != CHECK_ORDER[0];
    } else {
      assert (t0 + d0 + t1 + d1)[1..] == d0 + t1 + d1;
    }
  }

  /** A field is never both missing and too long, so a page has at most two issues. */
  lemma AtMostTwoIssues(title: string, description: string)
    ensures |Classify(title, description)| <= 2
  {
  }

  /** Whitespace around the title or the description never changes the issues. */
  lemma PageIssuesIgnorePadding(a: string, title: string, b: string, c: string, description: string, d: string)
    requires AllSpace(a) && AllSpace(b) && AllSpace(c) && AllSpace(d)
    ensures PageIssues(a + title + b, Some(c + description + d)) == PageIssues(title, Some(description))
  {
    TrimIgnoresPadding(a, title, b);
    TrimIgnoresPadding(c, description, d);
  }

  /** A title is missing exactly when it is blank, and a description exactly
      when the attribute is absent or blank. */
  lemma MissingExactlyWhenBlank(titleText: string, description: Option<string>)
    ensures MISSING_TITLE in PageIssues(titleText, description) <==> AllSpace(titleText)
    ensures MISSING_DESCRIPTION in PageIssues(titleText, description)
      <==> (description.None? || AllSpace(description.value))
  {
    ClassifyExactly(Trim(titleText), TrimmedAttribute(description));
    TrimBlank(titleText);
    if description.Some? {
      TrimBlank(description.value);
    }
  }

  /** A 70-character title and no description attribute: the page fails on both counts. */
  lemma LongTitleWithoutDescription(title: string)
    requires |title| == 70 && !IsSpace(title[0]) && !IsSpace(title[69])
    ensures PageIssues(title, None) == [MISSING_DESCRIPTION, TITLE_TOO_LONG]
    ensures VerdictOf(PageIssues(title, None)) == Fail
  {
    TrimStartNoLeadingSpace(title);
    TrimEndNoTrailingSpace(title);
  }

  /** Thirty-one emoji make a title of 62 code units: too long, though it
      holds only 31 characters. */
  lemma AstralTitleTooLong(title: string, description: string)
    requires |title| == 31 && forall i :: 0 <= i < |title| ==> title[i] == '\U{1F600}'
    requires description != "" && Utf16Length(description) <= MAX_DESCRIPTION_LENGTH
    ensures Classify(title, description) == [TITLE_TOO_LONG]
  {
    Utf16LengthAstral(title);
  }
}
