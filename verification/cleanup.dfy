/**
 * Clean-up of the text returned by the analysis language-model call before it is
 * handed to the JSON parser: every backtick is removed, then one leading
 * case-insensitive `json` together with the whitespace after it, then the
 * surrounding whitespace.
 */
module ResponseCleanup {

  /** The characters matched by `\s` in an ECMAScript regular expression, which are
      also the ones `String.prototype.trim` removes: WhiteSpace and LineTerminator. */
  predicate IsWhitespace(c: char) {
    || c == '\t' || c == '\n' || c == '\U{000B}' || c == '\U{000C}' || c == '\r' || c == ' '
    || c == '\U{00A0}' || c == '\U{1680}' || ('\U{2000}' <= c <= '\U{200A}')
    || c == '\U{2028}' || c == '\U{2029}' || c == '\U{202F}' || c == '\U{205F}'
    || c == '\U{3000}' || c == '\U{FEFF}'
  }

  predicate AllWhitespace(s: string) {
    forall i :: 0 <= i < |s| ==> IsWhitespace(s[i])
  }

  /** Neither the first nor the last character is whitespace. */
  predicate Trimmed(s: string) {
    s == [] || (!IsWhitespace(s[0]) && !IsWhitespace(s[|s| - 1]))
  }

  const Backtick: char := '`'

  /** The opening or closing line marker of a fenced code block. */
  const Fence: string := [Backtick, Backtick, Backtick]

  /** `text.replace(/`/g, '')` */
  function RemoveBackticks(s: string): (r: string)
    ensures Backtick !in r
    ensures |r| <= |s|
  {
    if s == [] then []
    else
      (if s[0] == Backtick then [] else [s[0]]) + RemoveBackticks(s[1..])
  }

  /** The whitespace prefix removed by `trim` (and by a trailing `\s*`). */
  function TrimStart(s: string): (r: string)
    ensures |r| <= |s|
  {
    if s != [] && IsWhitespace(s[0]) then TrimStart(s[1..]) else s
  }

  /** The whitespace suffix removed by `trim`. */
  function TrimEnd(s: string): (r: string)
    ensures |r| <= |s|
  {
    if s != [] && IsWhitespace(s[|s| - 1]) then TrimEnd(s[..|s| - 1]) else s
  }

  /** `String.prototype.trim` */
  function Trim(s: string): (r: string)
    ensures Trimmed(r) && |r| <= |s|
  {
    TrimStartShape(s);
    TrimEndShape(TrimStart(s));
    TrimEnd(TrimStart(s))
  }

  /** The regular expression `/^json/i`: the first four characters spell `json`
      in any mix of upper and lower case. */
  predicate StartsWithJsonTag(s: string) {
    && |s| >= 4
    && (s[0] == 'j' || s[0] == 'J')
    && (s[1] == 's' || s[1] == 'S')
    && (s[2] == 'o' || s[2] == 'O')
    && (s[3] == 'n' || s[3] == 'N')
  }

  // The replacement of the pattern `^json\s*` (case-insensitive) by nothing: the
  // greedy whitespace repetition takes every whitespace character after the tag,
  // and nothing needs to follow the tag.
  function StripJsonTag(s: string): (r: string)
    ensures !StartsWithJsonTag(s) ==> r == s
    ensures StartsWithJsonTag(s) ==> |r| <= |s| - 4
  {
    if StartsWithJsonTag(s) then
      TrimStartShape(s[4..]);
      TrimStart(s[4..])
    else s
  }

  /** The text handed to the JSON parser; an empty result stands for "no analysis". */
  function Clean(text: string): (r: string)
    ensures Trimmed(r) && |r| <= |text|
  {
    Trim(StripJsonTag(RemoveBackticks(text)))
  }

  // ---------------------------------------------------------------------------
  // Properties of the clean-up

  /** TrimStart drops a whitespace prefix, and exactly the longest one: what is
      left is a suffix that does not start with whitespace. */
  lemma {:induction false} TrimStartShape(s: string)
    ensures var r := TrimStart(s);
            && |r| <= |s| && r == s[|s| - |r|..]
            && AllWhitespace(s[..|s| - |r|])
            && (r == [] || !IsWhitespace(r[0]))
  {
    if s != [] && IsWhitespace(s[0]) {
      TrimStartShape(s[1..]);
      var r := TrimStart(s);
      assert s[1..][|s| - 1 - |r|..] == s[|s| - |r|..];
      assert s[..|s| - |r|] == [s[0]] + s[1..][..|s| - 1 - |r|];
    }
  }

  /** TrimEnd drops a whitespace suffix, and exactly the longest one. */
  lemma {:induction false} TrimEndShape(s: string)
    ensures var r := TrimEnd(s);
            && |r| <= |s| && r == s[..|r|]
            && AllWhitespace(s[|r|..])
            && (r == [] || !IsWhitespace(r[|r| - 1]))
  {
    if s != [] && IsWhitespace(s[|s| - 1]) {
      var t := s[..|s| - 1];
      TrimEndShape(t);
      var r := TrimEnd(s);
      assert t[..|r|] == s[..|r|];
      assert s[|r|..] == t[|r|..] + [s[|s| - 1]];
    }
  }

  /** Trim keeps the middle part of its argument and drops whitespace on both sides:
      together with `Trimmed`, this pins the result down (see TrimExact). */
  lemma TrimShape(s: string)
    ensures var r := Trim(s);
            var n := |s| - |TrimStart(s)|;
            && n + |r| <= |s| && r == s[n..n + |r|]
            && AllWhitespace(s[..n]) && AllWhitespace(s[n + |r|..])
  {
    var t := TrimStart(s);
    TrimStartShape(s);
    TrimEndShape(t);
    var n := |s| - |t|;
    var r := TrimEnd(t);
    assert t == s[n..];
    assert t[..|r|] == s[n..n + |r|];
    assert t[|r|..] == s[n + |r|..];
  }

  /** With the tag present, StripJsonTag drops it and the whitespace after it. */
  lemma StripJsonTagShape(s: string)
    requires StartsWithJsonTag(s)
    ensures var r := StripJsonTag(s);
            && r == s[|s| - |r|..]
            && AllWhitespace(s[4..|s| - |r|])
            && (r == [] || !IsWhitespace(r[0]))
  {
    TrimStartShape(s[4..]);
    var r := StripJsonTag(s);
    assert s[4..][|s| - 4 - |r|..] == s[|s| - |r|..];
    assert s[4..][..|s| - 4 - |r|] == s[4..|s| - |r|];
  }

  /** No backtick survives the clean-up. */
  lemma CleanHasNoBackticks(text: string)
    ensures Backtick !in Clean(text)
  {
    var u := RemoveBackticks(text);
    var t := StripJsonTag(u);
    if StartsWithJsonTag(u) {
      StripJsonTagShape(u);
    }
    assert Backtick !in t;
    TrimShape(t);
  }

  /** Removing backticks works character by character: it distributes over concatenation. */
  lemma {:induction false} RemoveBackticksAppend(a: string, b: string)
    ensures RemoveBackticks(a + b) == RemoveBackticks(a) + RemoveBackticks(b)
  {
    if a == [] {
      assert a + b == b;
    } else {
      assert (a + b)[0] == a[0];
      assert (a + b)[1..] == a[1..] + b;
      RemoveBackticksAppend(a[1..], b);
      var head := if a[0] == Backtick then [] else [a[0]];
      assert RemoveBackticks(a + b) == head + (RemoveBackticks(a[1..]) + RemoveBackticks(b));
    }
  }

  /** Removing backticks keeps every other character, as often as it occurs. */
  lemma {:induction false} RemoveBackticksKeepsOthers(s: string)
    ensures multiset(RemoveBackticks(s)) == multiset(s)[Backtick := 0]
  {
    if s != [] {
      RemoveBackticksKeepsOthers(s[1..]);
      var head := if s[0] == Backtick then [] else [s[0]];
      assert RemoveBackticks(s) == head + RemoveBackticks(s[1..]);
      assert s == [s[0]] + s[1..];
      assert multiset(s) == multiset([s[0]]) + multiset(s[1..]);
    }
  }

  /** Text without backticks passes through unchanged (so the removal is idempotent). */
  lemma {:induction false} RemoveBackticksIdentity(s: string)
    requires Backtick !in s
    ensures RemoveBackticks(s) == s
  {
    if s != [] {
      assert s[0] in s;
      assert forall c :: c in s[1..] ==> c in s;
      RemoveBackticksIdentity(s[1..]);
      assert s == [s[0]] + s[1..];
    }
  }

  /** Leading whitespace makes no difference to TrimStart. */
  lemma {:induction false} TrimStartAbsorbs(w: string, t: string)
    requires AllWhitespace(w)
    ensures TrimStart(w + t) == TrimStart(t)
  {
    if w != [] {
      assert (w + t)[0] == w[0];
      assert (w + t)[1..] == w[1..] + t;
      TrimStartAbsorbs(w[1..], t);
    } else {
      assert w + t == t;
    }
  }

  /** Trailing whitespace makes no difference to TrimEnd. */
  lemma {:induction false} TrimEndAbsorbs(t: string, w: string)
    requires AllWhitespace(w)
    ensures TrimEnd(t + w) == TrimEnd(t)
  {
    if w != [] {
      var n := |t + w|;
      assert (t + w)[n - 1] == w[|w| - 1];
      assert (t + w)[..n - 1] == t + w[..|w| - 1];
      TrimEndAbsorbs(t, w[..|w| - 1]);
    } else {
      assert t + w == t;
    }
  }

  /** Trim removes exactly the surrounding whitespace: whatever whitespace surrounds
      a trimmed middle part, Trim gives back that middle part. */
  lemma TrimExact(w1: string, m: string, w2: string)
    requires AllWhitespace(w1) && AllWhitespace(w2) && Trimmed(m)
    ensures Trim(w1 + m + w2) == m
  {
    assert w1 + m + w2 == w1 + (m + w2);
    TrimStartAbsorbs(w1, m + w2);
    TrimEndAbsorbs(m, w2);
    if m == [] {
      assert m + w2 == w2 + [];
      TrimStartAbsorbs(w2, []);
      assert Trim(w1 + m + w2) == TrimEnd([]);
    } else {
      assert (m + w2)[0] == m[0];
      assert TrimStart(m + w2) == m + w2;
      assert TrimEnd(m) == m;
    }
  }

  /** A tagged reply: the tag, the whitespace after it and the surrounding
      whitespace of the body all disappear, and only that one tag does. */
  lemma CleanTagged(tag: string, w: string, body: string)
    requires |tag| == 4 && StartsWithJsonTag(tag)
    requires AllWhitespace(w)
    requires Backtick !in tag + w + body
    ensures Clean(tag + w + body) == Trim(body)
  {
    var s := tag + w + body;
    RemoveBackticksIdentity(s);
    assert StartsWithJsonTag(s);
    assert s[4..] == w + body;
    TrimStartAbsorbs(w, body);
    TrimStartShape(body);
    var t := TrimStart(body);
    assert TrimStart(t) == t;
  }

  /** Trimmed text is its own trim. */
  lemma TrimIdentity(m: string)
    requires Trimmed(m)
    ensures Trim(m) == m
  {
    TrimExact([], m, []);
    assert [] + m + [] == m;
  }

  /** An untagged reply without backticks is only trimmed. */
  lemma CleanUntagged(s: string)
    requires Backtick !in s && !StartsWithJsonTag(s)
    ensures Clean(s) == Trim(s)
  {
    RemoveBackticksIdentity(s);
  }

  /** The fences of a code block disappear and leave its content as it is. */
  lemma RemoveFences(inner: string)
    requires Backtick !in inner
    ensures RemoveBackticks(Fence + inner + Fence) == inner
  {
    assert RemoveBackticks(Fence) == [] by {
      assert Fence[1..] == [Backtick, Backtick] && Fence[1..][1..] == [Backtick];
      assert RemoveBackticks([Backtick]) == [] by { assert [Backtick][1..] == []; }
    }
    RemoveBackticksAppend(Fence, inner + Fence);
    RemoveBackticksAppend(inner, Fence);
    RemoveBackticksIdentity(inner);
    assert Fence + inner + Fence == Fence + (inner + Fence);
  }

  /** A reply wrapped in a fenced code block: the fences, the language tag and the
      surrounding whitespace go, and the body is handed over as it is. */
  lemma CleanFenced(tag: string, w: string, body: string)
    requires |tag| == 4 && StartsWithJsonTag(tag)
    requires AllWhitespace(w)
    requires Backtick !in tag + w + body
    ensures Clean(Fence + tag + w + body + Fence) == Trim(body)
  {
    var inner := tag + w + body;
    RemoveFences(inner);
    RemoveBackticksIdentity(inner);
    assert Fence + tag + w + body + Fence == Fence + inner + Fence;
    assert Clean(Fence + inner + Fence) == Clean(inner);
    CleanTagged(tag, w, body);
  }
}
