/**
 * How findings and summaries are written into the prompts: one line per element,
 * joined with a line feed in sequence order.
 */
module Rendering {
  import opened Extraction

  const NewLine: char := '\n'

  /** `[From <source>]: <text>` */
  function FindingLine(f: Finding): (r: string)
    ensures (NewLine in r) <==> (NewLine in f.source || NewLine in f.text)
  {
    "[From " + f.source + "]: " + f.text
  }

  /** `[Summary]: <summary>` */
  function SummaryLine(s: string): (r: string)
    ensures (NewLine in r) <==> (NewLine in s)
  {
    "[Summary]: " + s
  }

  /** `Array.prototype.join('\n')` over strings. */
  function JoinLines(lines: seq<string>): string {
    if lines == [] then ""
    else if |lines| == 1 then lines[0]
    else lines[0] + [NewLine] + JoinLines(lines[1..])
  }

  /** The pieces between line feeds, `s.split('\n')`; it has at least one piece. */
  function SplitLines(s: string): (r: seq<string>)
    ensures |r| >= 1
  {
    if s == [] then [""]
    else if s[0] == NewLine then [""] + SplitLines(s[1..])
    else
      var rest := SplitLines(s[1..]);
      [[s[0]] + rest[0]] + rest[1..]
  }

  function FindingLines(findings: seq<Finding>): seq<string> {
    seq(|findings|, i requires 0 <= i < |findings| => FindingLine(findings[i]))
  }

  function SummaryLines(summaries: seq<string>): seq<string> {
    seq(|summaries|, i requires 0 <= i < |summaries| => SummaryLine(summaries[i]))
  }

  /** The findings block of the analysis and synthesis prompts. */
  function RenderFindings(findings: seq<Finding>): string {
    JoinLines(FindingLines(findings))
  }

  /** The summaries block of the synthesis prompt. */
  function RenderSummaries(summaries: seq<string>): string {
    JoinLines(SummaryLines(summaries))
  }

  predicate NoNewLine(lines: seq<string>) {
    forall i :: 0 <= i < |lines| ==> NewLine !in lines[i]
  }

  // ---------------------------------------------------------------------------
  // Properties of the rendering

  /** A string without line feeds is a single piece. */
  lemma {:induction false} SplitSingle(a: string)
    requires NewLine !in a
    ensures SplitLines(a) == [a]
  {
    if a != [] {
      assert a[0] in a;
      assert forall c :: c in a[1..] ==> c in a;
      SplitSingle(a[1..]);
      assert [a[0]] + a[1..] == a;
    }
  }

  /** A line without line feeds followed by a line feed is split off as one piece. */
  lemma {:induction false} SplitFirstLine(a: string, b: string)
    requires NewLine !in a
    ensures SplitLines(a + [NewLine] + b) == [a] + SplitLines(b)
  {
    if a == [] {
      assert a + [NewLine] + b == [NewLine] + b;
      assert ([NewLine] + b)[1..] == b;
    } else {
      var s := a + [NewLine] + b;
      assert s[0] == a[0];
      assert s[1..] == a[1..] + [NewLine] + b;
      assert a[0] in a;
      assert forall c :: c in a[1..] ==> c in a;
      SplitFirstLine(a[1..], b);
      assert [a[0]] + a[1..] == a;
    }
  }

  /** Splitting the joined lines gives the lines back, provided none of them holds a
      line feed; the empty list is the one exception, since it joins to "". */
  lemma {:induction false} SplitJoin(lines: seq<string>)
    requires lines != [] && NoNewLine(lines)
    ensures SplitLines(JoinLines(lines)) == lines
  {
    if |lines| == 1 {
      SplitSingle(lines[0]);
    } else {
      SplitFirstLine(lines[0], JoinLines(lines[1..]));
      SplitJoin(lines[1..]);
      assert lines == [lines[0]] + lines[1..];
    }
  }

  /** One line per finding, in order, when no source or text holds a line feed. */
  lemma RenderFindingsLines(findings: seq<Finding>)
    requires findings != []
    requires forall f <- findings :: NewLine !in f.source && NewLine !in f.text
    ensures var lines := SplitLines(RenderFindings(findings));
            |lines| == |findings| && forall i :: 0 <= i < |findings| ==> lines[i] == FindingLine(findings[i])
  {
    var lines := FindingLines(findings);
    assert forall i :: 0 <= i < |lines| ==> lines[i] == FindingLine(findings[i]) && findings[i] in findings;
    SplitJoin(lines);
  }

  /** One line per summary, in order, when no summary holds a line feed. */
  lemma RenderSummariesLines(summaries: seq<string>)
    requires summaries != []
    requires forall s <- summaries :: NewLine !in s
    ensures var lines := SplitLines(RenderSummaries(summaries));
            |lines| == |summaries| && forall i :: 0 <= i < |summaries| ==> lines[i] == SummaryLine(summaries[i])
  {
    var lines := SummaryLines(summaries);
    assert forall i :: 0 <= i < |lines| ==> lines[i] == SummaryLine(summaries[i]) && summaries[i] in summaries;
    SplitJoin(lines);
  }
}
