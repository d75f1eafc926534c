/**
 * The extraction phase of one research iteration: every candidate URL is
 * validated and extracted on its own, and the per-URL lists of findings are
 * joined in the order of the URLs (the concurrent fan-out joined in input order).
 */
module Extraction {

  /** One piece of extracted text and the URL it came from. */
  datatype Finding = Finding(text: string, source: string)

  /** The payload of a successful extraction: a list of items, each contributing
      its text, or a single value. */
  datatype Payload = Items(texts: seq<string>) | Single(text: string)

  /** What the extraction service does for one URL. `ExtractFailed` covers both a
      reply that reports failure and a call that throws. */
  datatype ExtractOutcome = Extracted(payload: Payload) | ExtractFailed

  /** Whether `new URL(url)` accepts the string. The empty string is never an
      absolute URL; every other string is decided by the URL parser `parses`. */
  predicate UrlAccepted(parses: string -> bool, url: string) {
    url != "" && parses(url)
  }

  /** The number of findings a successful extraction yields. */
  function PayloadSize(p: Payload): nat {
    match p
    case Items(texts) => |texts|
    case Single(_) => 1
  }

  /** The findings contributed by one URL, given what the service does for it. */
  function ExtractFromUrl(url: string, outcome: ExtractOutcome, parses: string -> bool): (r: seq<Finding>)
    ensures forall f <- r :: f.source == url
    ensures |r| == if UrlAccepted(parses, url) && outcome.Extracted? then PayloadSize(outcome.payload) else 0
    ensures UrlAccepted(parses, url) && outcome.Extracted? && outcome.payload.Items? ==>
              forall k :: 0 <= k < |r| ==> r[k].text == outcome.payload.texts[k]
    ensures UrlAccepted(parses, url) && outcome.Extracted? && outcome.payload.Single? ==>
              r[0].text == outcome.payload.text
  {
    if !UrlAccepted(parses, url) then []
    else
      match outcome
      case ExtractFailed => []
      case Extracted(Items(texts)) => seq(|texts|, k requires 0 <= k < |texts| => Finding(texts[k], url))
      case Extracted(Single(text)) => [Finding(text, url)]
  }

  /** The findings of every URL, flattened in the order of `urls`; `extract` says
      what the service does for each URL. */
  function ExtractFromUrls(urls: seq<string>, extract: string -> ExtractOutcome, parses: string -> bool): (r: seq<Finding>)
    ensures forall f <- r :: f.source in urls && UrlAccepted(parses, f.source)
  {
    if urls == [] then []
    else ExtractFromUrl(urls[0], extract(urls[0]), parses) + ExtractFromUrls(urls[1..], extract, parses)
  }

  // ---------------------------------------------------------------------------
  // Properties of the merge

  /** The join preserves input order: the findings of a concatenation of URL lists
      are the findings of the first list followed by those of the second. */
  lemma {:induction false} ExtractFromUrlsAppend(u1: seq<string>, u2: seq<string>, extract: string -> ExtractOutcome, parses: string -> bool)
    ensures ExtractFromUrls(u1 + u2, extract, parses) == ExtractFromUrls(u1, extract, parses) + ExtractFromUrls(u2, extract, parses)
  {
    if u1 == [] {
      assert u1 + u2 == u2;
    } else {
      assert (u1 + u2)[0] == u1[0];
      assert (u1 + u2)[1..] == u1[1..] + u2;
      ExtractFromUrlsAppend(u1[1..], u2, extract, parses);
    }
  }

  /** The findings of the URL at position i stay contiguous, and they sit right
      after the findings of all URLs before it. */
  lemma ExtractFromUrlsContiguous(urls: seq<string>, i: nat, extract: string -> ExtractOutcome, parses: string -> bool)
    requires i < |urls|
    ensures var all := ExtractFromUrls(urls, extract, parses);
            var start := |ExtractFromUrls(urls[..i], extract, parses)|;
            var own := ExtractFromUrl(urls[i], extract(urls[i]), parses);
            start + |own| <= |all| && all[start..start + |own|] == own
  {
    var all := ExtractFromUrls(urls, extract, parses);
    var pre := ExtractFromUrls(urls[..i], extract, parses);
    var own := ExtractFromUrl(urls[i], extract(urls[i]), parses);
    var tail := ExtractFromUrls(urls[i+1..], extract, parses);
    ExtractFromUrlsSplitAt(urls, i, extract, parses);
    MiddleSlice(all, pre, own, tail);
  }

  /** The flattening split around position i. */
  lemma ExtractFromUrlsSplitAt(urls: seq<string>, i: nat, extract: string -> ExtractOutcome, parses: string -> bool)
    requires i < |urls|
    ensures ExtractFromUrls(urls, extract, parses)
            == ExtractFromUrls(urls[..i], extract, parses)
               + (ExtractFromUrl(urls[i], extract(urls[i]), parses) + ExtractFromUrls(urls[i+1..], extract, parses))
  {
    var rest := urls[i..];
    assert urls == urls[..i] + rest;
    ExtractFromUrlsAppend(urls[..i], rest, extract, parses);
    ExtractFromUrlsCons(rest, extract, parses);
    assert rest[0] == urls[i] && rest[1..] == urls[i+1..];
  }

  /** One step of the flattening, stated on its own so callers need not unfold it. */
  lemma ExtractFromUrlsCons(urls: seq<string>, extract: string -> ExtractOutcome, parses: string -> bool)
    requires urls != []
    ensures ExtractFromUrls(urls, extract, parses)
            == ExtractFromUrl(urls[0], extract(urls[0]), parses) + ExtractFromUrls(urls[1..], extract, parses)
  {
  }

  /** The middle part of a concatenation of three sequences is found where it was put. */
  lemma MiddleSlice<T>(all: seq<T>, a: seq<T>, b: seq<T>, c: seq<T>)
    requires all == a + (b + c)
    ensures |a| + |b| <= |all| && all[|a|..|a| + |b|] == b
  {
    assert forall k :: 0 <= k < |b| ==> all[|a| + k] == b[k];
  }

  /** A URL that `new URL` rejects (the empty extra URL of the first iteration
      among them) adds nothing, whatever the service would have done for it. */
  lemma RejectedUrlAddsNothing(url: string, rest: seq<string>, extract: string -> ExtractOutcome, parses: string -> bool)
    requires !UrlAccepted(parses, url)
    ensures ExtractFromUrls([url] + rest, extract, parses) == ExtractFromUrls(rest, extract, parses)
  {
    assert ([url] + rest)[1..] == rest;
  }

  /** When the service fails for every URL, no URL contributes a finding. */
  lemma {:induction false} NothingExtracted(urls: seq<string>, extract: string -> ExtractOutcome, parses: string -> bool)
    requires forall url :: extract(url) == ExtractFailed
    ensures ExtractFromUrls(urls, extract, parses) == []
  {
    if urls != [] {
      NothingExtracted(urls[1..], extract, parses);
    }
  }

  /** The number of findings is the sum of the per-URL contributions. */
  function ExpectedCount(urls: seq<string>, extract: string -> ExtractOutcome, parses: string -> bool): nat {
    if urls == [] then 0
    else
      (if UrlAccepted(parses, urls[0]) && extract(urls[0]).Extracted? then PayloadSize(extract(urls[0]).payload) else 0)
      + ExpectedCount(urls[1..], extract, parses)
  }

  lemma {:induction false} ExtractFromUrlsCount(urls: seq<string>, extract: string -> ExtractOutcome, parses: string -> bool)
    ensures |ExtractFromUrls(urls, extract, parses)| == ExpectedCount(urls, extract, parses)
  {
    if urls != [] {
      ExtractFromUrlsCount(urls[1..], extract, parses);
    }
  }

  // ---------------------------------------------------------------------------
  // The extraction as written: its debug line reads a free name `prompt`

  /** The per-URL extraction exactly as written. After validation it logs the
      free identifier `prompt`, which nothing in scope binds. Where the runtime
      has no global of that name (Node.js), the read throws a ReferenceError.
      The surrounding catch turns that into an empty list before the service is
      called. `promptBound` says whether the runtime provides such a global. */
  function ExtractFromUrlAsWritten(url: string, outcome: ExtractOutcome, parses: string -> bool, promptBound: bool): (r: seq<Finding>)
    ensures promptBound ==> r == ExtractFromUrl(url, outcome, parses)
    ensures !promptBound ==> r == []
  {
    if !UrlAccepted(parses, url) then []
    else if !promptBound then []
    else ExtractFromUrl(url, outcome, parses)
  }

  /** Without a global `prompt`, a valid URL whose extraction succeeds still
      contributes nothing, where the evidently intended extraction contributes
      its finding. */
  lemma UnboundPromptLosesFindings()
    ensures var url := "https://example.org";
            var parses := (u: string) => true;
            var outcome := Extracted(Single("fact"));
            ExtractFromUrlAsWritten(url, outcome, parses, false) == []
            && ExtractFromUrl(url, outcome, parses) == [Finding("fact", url)]
  {
  }
}
