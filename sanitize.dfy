/**
 * src/lib/sanitize.ts: the clean-up applied to user strings before they are
 * put into a prompt. Control characters other than tab, line feed and
 * carriage return are removed, runs of three or more line feeds become two,
 * and the result is cut to a maximum length (JavaScript `slice(0, n)`).
 */
module Sanitize {
  import opened Text

  const DefaultMaxLength := 500

  /** The class `[\x00-\x08\x0B\x0C\x0E-\x1F\x7F]`. */
  predicate IsStrippedControl(c: char) {
    var n := c as int;
    (0 <= n <= 0x08) || n == 0x0B || n == 0x0C || (0x0E <= n <= 0x1F) || n == 0x7F
  }

  predicate NoStrippedControl(s: string) {
    forall i :: 0 <= i < |s| ==> !IsStrippedControl(s[i])
  }

  /** No three consecutive line feeds. */
  predicate NoTripleNewline(s: string) {
    forall i :: 0 <= i && i + 2 < |s| ==> !(s[i] == '\n' && s[i + 1] == '\n' && s[i + 2] == '\n')
  }

  /** The first `replace`: every stripped control character removed, every other kept in order. */
  function StripControl(s: string): (r: string)
    ensures |r| <= |s|
    ensures NoStrippedControl(r)
    ensures NoStrippedControl(s) ==> r == s
  {
    if s == [] then [] else (if IsStrippedControl(s[0]) then [] else [s[0]]) + StripControl(s[1..])
  }

  /** StripControl works character by character, so it keeps the order of what it keeps. */
  lemma {:induction false} StripControlAppend(a: string, b: string)
    ensures StripControl(a + b) == StripControl(a) + StripControl(b)
  {
    if a != [] {
      assert (a + b)[0] == a[0];
      assert (a + b)[1..] == a[1..] + b;
      StripControlAppend(a[1..], b);
      var h := if IsStrippedControl(a[0]) then [] else [a[0]];
      assert h + (StripControl(a[1..]) + StripControl(b)) == (h + StripControl(a[1..])) + StripControl(b);
    } else {
      assert a + b == b;
    }
  }

  /** One character: a stripped control character disappears, any other stays. */
  lemma StripControlChar(c: char)
    ensures StripControl([c]) == if IsStrippedControl(c) then [] else [c]
  {
    assert [c][1..] == [];
  }

  /** Stripping removes exactly the stripped control characters of `a + [c] + b`. */
  lemma StripControlAround(a: string, c: char, b: string)
    ensures StripControl(a + [c] + b) == StripControl(a) + (if IsStrippedControl(c) then [] else [c]) + StripControl(b)
  {
    StripControlAppend(a + [c], b);
    StripControlAppend(a, [c]);
    StripControlChar(c);
  }

  /** `k` line feeds. */
  function Newlines(k: nat): (r: string)
    ensures |r| == k
    ensures forall i :: 0 <= i < k ==> r[i] == '\n'
  {
    if k == 0 then [] else "\n" + Newlines(k - 1)
  }

  /** The length of the run of line feeds that `s` starts with. */
  function LeadingNewlines(s: string): (k: nat)
    ensures k <= |s|
    ensures forall i :: 0 <= i < k ==> s[i] == '\n'
    ensures k < |s| ==> s[k] != '\n'
  {
    if s == [] || s[0] != '\n' then 0 else 1 + LeadingNewlines(s[1..])
  }

  /** A prefix of `k` line feeds followed by anything else is a leading run of length `k`. */
  lemma {:induction false} LeadingNewlinesIs(s: string, k: nat)
    requires k <= |s|
    requires forall i :: 0 <= i < k ==> s[i] == '\n'
    requires k < |s| ==> s[k] != '\n'
    ensures LeadingNewlines(s) == k
  {
    if k > 0 {
      LeadingNewlinesIs(s[1..], k - 1);
    }
  }

  /** A leading run of `a` that does not run into `b` is the leading run of `a + b`. */
  lemma LeadingNewlinesAppend(a: string, b: string)
    requires a != [] && a[0] == '\n'
    requires b == [] || a[|a| - 1] != '\n' || b[0] != '\n'
    ensures (a + b)[0] == '\n' && LeadingNewlines(a + b) == LeadingNewlines(a)
  {
    var s := a + b;
    var k := LeadingNewlines(a);
    if k < |a| {
      assert s[k] == a[k];
    } else {
      assert a[|a| - 1] == '\n';
      assert b != [] ==> s[k] == b[0];
    }
    LeadingNewlinesIs(s, k);
  }

  lemma NoTripleJoin(p: string, r: string)
    requires NoTripleNewline(p) && NoTripleNewline(r)
    requires (p != [] && p[|p| - 1] != '\n') || (|p| <= 2 && (r == [] || r[0] != '\n'))
    ensures NoTripleNewline(p + r)
  {
    var s := p + r;
    forall i | 0 <= i && i + 2 < |s|
      ensures !(s[i] == '\n' && s[i + 1] == '\n' && s[i + 2] == '\n')
    {
      if i + 2 < |p| {
        assert s[i] == p[i] && s[i + 1] == p[i + 1] && s[i + 2] == p[i + 2];
      } else if i >= |p| {
        assert s[i] == r[i - |p|] && s[i + 1] == r[i + 1 - |p|] && s[i + 2] == r[i + 2 - |p|];
      } else if p != [] && p[|p| - 1] != '\n' {
        assert s[|p| - 1] == p[|p| - 1];
      } else {
        assert s[|p|] == r[0];
      }
    }
  }

  /** The second `replace`: `/\n{3,}/g` becomes `\n\n`; runs of one or two line feeds stay. */
  function CollapseNewlines(s: string): (r: string)
    ensures NoTripleNewline(r)
    ensures |r| <= |s|
    ensures r == [] <==> s == []
    ensures r != [] ==> (r[0] == '\n' <==> s[0] == '\n')
    decreases |s|
  {
    if s == [] then []
    else if s[0] != '\n' then
      var rest := CollapseNewlines(s[1..]);
      NoTripleJoin([s[0]], rest);
      [s[0]] + rest
    else
      var k := LeadingNewlines(s);
      var run := if k >= 3 then "\n\n" else s[..k];
      var rest := CollapseNewlines(s[k..]);
      NoTripleJoin(run, rest);
      run + rest
  }

  /** A string with no run of three line feeds is left as it is. */
  lemma {:induction false} CollapseNewlinesUnchanged(s: string)
    requires NoTripleNewline(s)
    ensures CollapseNewlines(s) == s
    decreases |s|
  {
    if s != [] {
      if s[0] != '\n' {
        CollapseNewlinesUnchanged(s[1..]);
      } else {
        var k := LeadingNewlines(s);
        assert |s| >= 3 ==> !(s[0] == '\n' && s[1] == '\n' && s[2] == '\n');
        assert k <= 2;
        NoTripleSuffix(s, k);
        CollapseNewlinesUnchanged(s[k..]);
        assert s[..k] + s[k..] == s;
      }
    }
  }

  /** CollapseNewlines on a string that starts with a character other than a line feed. */
  lemma CollapseTextHead(s: string)
    requires s != [] && s[0] != '\n'
    ensures CollapseNewlines(s) == [s[0]] + CollapseNewlines(s[1..])
  {
  }

  /** CollapseNewlines on a string that starts with a run of `k` line feeds. */
  lemma CollapseRunHead(s: string, k: nat)
    requires s != [] && s[0] == '\n' && LeadingNewlines(s) == k
    ensures CollapseNewlines(s) == (if k >= 3 then "\n\n" else s[..k]) + CollapseNewlines(s[k..])
  {
  }

  lemma SliceAppend(a: string, b: string, k: nat)
    requires k <= |a|
    ensures (a + b)[..k] == a[..k] && (a + b)[k..] == a[k..] + b
  {
  }

  /**
   * Collapsing works run by run: where `a` and `b` do not meet inside a run
   * of line feeds, the two halves collapse separately.
   */
  lemma {:induction false} CollapseNewlinesAppend(a: string, b: string)
    requires a == [] || b == [] || a[|a| - 1] != '\n' || b[0] != '\n'
    ensures CollapseNewlines(a + b) == CollapseNewlines(a) + CollapseNewlines(b)
    decreases |a|, 1
  {
    if a == [] {
      assert a + b == b;
    } else if a[0] != '\n' {
      CollapseAppendTextHead(a, b);
    } else {
      CollapseAppendRunHead(a, b);
    }
  }

  /** CollapseNewlinesAppend when `a` starts with a character other than a line feed. */
  lemma {:induction false} CollapseAppendTextHead(a: string, b: string)
    requires a != [] && a[0] != '\n'
    requires b == [] || a[|a| - 1] != '\n' || b[0] != '\n'
    ensures CollapseNewlines(a + b) == CollapseNewlines(a) + CollapseNewlines(b)
    decreases |a|, 0
  {
    var s := a + b;
    assert s[0] == a[0];
    assert s[1..] == a[1..] + b;
    CollapseTextHead(s);
    CollapseTextHead(a);
    CollapseNewlinesAppend(a[1..], b);
    calc {
      CollapseNewlines(s);
      [a[0]] + CollapseNewlines(a[1..] + b);
      [a[0]] + (CollapseNewlines(a[1..]) + CollapseNewlines(b));
      { AppendAssoc([a[0]], CollapseNewlines(a[1..]), CollapseNewlines(b)); }
      ([a[0]] + CollapseNewlines(a[1..])) + CollapseNewlines(b);
    }
  }

  /** CollapseNewlinesAppend when `a` starts with a run of line feeds. */
  lemma {:induction false} CollapseAppendRunHead(a: string, b: string)
    requires a != [] && a[0] == '\n'
    requires b == [] || a[|a| - 1] != '\n' || b[0] != '\n'
    ensures CollapseNewlines(a + b) == CollapseNewlines(a) + CollapseNewlines(b)
    decreases |a|, 0
  {
    var s := a + b;
    var k := LeadingNewlines(a);
    var run := if k >= 3 then "\n\n" else a[..k];
    CollapseRunHead(a, k);
    LeadingNewlinesAppend(a, b);
    SliceAppend(a, b, k);
    CollapseRunHead(s, k);
    CollapseNewlinesAppend(a[k..], b);
    calc {
      CollapseNewlines(s);
      (if k >= 3 then "\n\n" else s[..k]) + CollapseNewlines(s[k..]);
      run + CollapseNewlines(a[k..] + b);
      run + (CollapseNewlines(a[k..]) + CollapseNewlines(b));
      { AppendAssoc(run, CollapseNewlines(a[k..]), CollapseNewlines(b)); }
      (run + CollapseNewlines(a[k..])) + CollapseNewlines(b);
    }
  }

  /**
   * A run of `k` line feeds between two other characters becomes `\n\n` when
   * `k` is three or more and is kept as it is otherwise.
   */
  lemma CollapseRun(p: string, k: nat, q: string)
    requires k >= 1
    requires p == [] || p[|p| - 1] != '\n'
    requires q == [] || q[0] != '\n'
    ensures CollapseNewlines(p + Newlines(k) + q) ==
      CollapseNewlines(p) + (if k >= 3 then "\n\n" else Newlines(k)) + CollapseNewlines(q)
  {
    var t := Newlines(k) + q;
    var run := if k >= 3 then "\n\n" else Newlines(k);
    AppendAssoc(p, Newlines(k), q);
    CollapseNewlinesAppend(p, t);
    assert k < |t| ==> t[k] == q[0];
    LeadingNewlinesIs(t, k);
    SliceAppend(Newlines(k), q, k);
    assert Newlines(k)[..k] == Newlines(k) && Newlines(k)[k..] == [];
    CollapseRunHead(t, k);
    calc {
      CollapseNewlines(p + Newlines(k) + q);
      CollapseNewlines(p) + CollapseNewlines(t);
      CollapseNewlines(p) + (run + CollapseNewlines(q));
      { AppendAssoc(CollapseNewlines(p), run, CollapseNewlines(q)); }
      CollapseNewlines(p) + run + CollapseNewlines(q);
    }
  }

  lemma NoTripleSuffix(s: string, k: nat)
    requires k <= |s| && NoTripleNewline(s)
    ensures NoTripleNewline(s[k..])
  {
    var t := s[k..];
    forall i | 0 <= i && i + 2 < |t|
      ensures !(t[i] == '\n' && t[i + 1] == '\n' && t[i + 2] == '\n')
    {
      assert t[i] == s[i + k] && t[i + 1] == s[i + k + 1] && t[i + 2] == s[i + k + 2];
    }
  }

  /** `s` with every line feed removed. */
  function WithoutNewlines(s: string): string {
    if s == [] then [] else (if s[0] == '\n' then [] else [s[0]]) + WithoutNewlines(s[1..])
  }

  lemma {:induction false} WithoutNewlinesAppend(a: string, b: string)
    ensures WithoutNewlines(a + b) == WithoutNewlines(a) + WithoutNewlines(b)
  {
    if a != [] {
      assert (a + b)[0] == a[0];
      assert (a + b)[1..] == a[1..] + b;
      WithoutNewlinesAppend(a[1..], b);
      var h := if a[0] == '\n' then [] else [a[0]];
      assert h + (WithoutNewlines(a[1..]) + WithoutNewlines(b)) == (h + WithoutNewlines(a[1..])) + WithoutNewlines(b);
    } else {
      assert a + b == b;
    }
  }

  lemma {:induction false} WithoutNewlinesOfRun(s: string)
    requires forall i :: 0 <= i < |s| ==> s[i] == '\n'
    ensures WithoutNewlines(s) == []
  {
    if s != [] {
      WithoutNewlinesOfRun(s[1..]);
    }
  }

  /** Collapsing touches line feeds only: every other character survives, in order. */
  lemma {:induction false} CollapseNewlinesKeepsText(s: string)
    ensures WithoutNewlines(CollapseNewlines(s)) == WithoutNewlines(s)
    decreases |s|
  {
    if s != [] {
      if s[0] != '\n' {
        CollapseNewlinesKeepsText(s[1..]);
        WithoutNewlinesAppend([s[0]], CollapseNewlines(s[1..]));
      } else {
        var k := LeadingNewlines(s);
        var run := if k >= 3 then "\n\n" else s[..k];
        CollapseNewlinesKeepsText(s[k..]);
        WithoutNewlinesAppend(run, CollapseNewlines(s[k..]));
        WithoutNewlinesOfRun(run);
        assert s == s[..k] + s[k..];
        WithoutNewlinesAppend(s[..k], s[k..]);
        WithoutNewlinesOfRun(s[..k]);
      }
    }
  }

  /** JavaScript `s.slice(0, end)`: a negative end counts back from the end of the string. */
  function SliceTo(s: string, end: int): (r: string)
    ensures |r| <= |s| && r == s[..|r|]
    ensures end >= 0 ==> |r| == if end < |s| then end else |s|
    ensures end < 0 ==> |r| == if |s| + end > 0 then |s| + end else 0
  {
    if end >= 0 then (if end < |s| then s[..end] else s)
    else if |s| + end > 0 then s[..|s| + end] else []
  }

  /** `sanitizePromptInput(input, maxLength)`. */
  function SanitizePromptInput(input: string, maxLength: int): (r: string)
    ensures |r| <= |CollapseNewlines(StripControl(input))| && r == CollapseNewlines(StripControl(input))[..|r|]
    ensures maxLength >= 0 ==> |r| <= maxLength
    ensures maxLength >= 0 ==> |r| == if maxLength < |CollapseNewlines(StripControl(input))| then maxLength else |CollapseNewlines(StripControl(input))|
    ensures NoStrippedControl(r) && NoTripleNewline(r)
  {
    var cleaned := CollapseNewlines(StripControl(input));
    var r := SliceTo(cleaned, maxLength);
    assert forall i :: 0 <= i < |r| ==> r[i] == cleaned[i];
    CollapsePreservesNoControl(StripControl(input));
    r
  }

  lemma {:induction false} CollapsePreservesNoControl(s: string)
    requires NoStrippedControl(s)
    ensures NoStrippedControl(CollapseNewlines(s))
    decreases |s|
  {
    if s != [] {
      if s[0] != '\n' {
        CollapsePreservesNoControl(s[1..]);
      } else {
        var k := LeadingNewlines(s);
        CollapsePreservesNoControl(s[k..]);
        var run := if k >= 3 then "\n\n" else s[..k];
        assert NoStrippedControl(run);
      }
    }
  }

  /** Input already clean and short enough is returned as it is. */
  lemma SanitizeUnchanged(input: string, maxLength: int)
    requires NoStrippedControl(input) && NoTripleNewline(input) && |input| <= maxLength
    ensures SanitizePromptInput(input, maxLength) == input
  {
    CollapseNewlinesUnchanged(input);
  }

  /** Sanitising twice with the same non-negative limit is sanitising once. */
  lemma SanitizeIdempotent(input: string, maxLength: int)
    requires maxLength >= 0
    ensures SanitizePromptInput(SanitizePromptInput(input, maxLength), maxLength) == SanitizePromptInput(input, maxLength)
  {
    SanitizeUnchanged(SanitizePromptInput(input, maxLength), maxLength);
  }

  /**
   * `sanitizePromptInput(input)` with the default limit: at most 500
   * characters, all of the cleaned string when it is no longer.
   */
  function SanitizeWithDefault(input: string): (r: string)
    ensures |r| <= DefaultMaxLength
    ensures |CollapseNewlines(StripControl(input))| <= DefaultMaxLength ==> r == CollapseNewlines(StripControl(input))
    ensures NoStrippedControl(r) && NoTripleNewline(r)
  {
    SanitizePromptInput(input, DefaultMaxLength)
  }

  /** `sanitizeArray(inputs, maxItemLength)`: element-wise, same length, same order. */
  function SanitizeArray(inputs: seq<string>, maxItemLength: int): (r: seq<string>)
    ensures |r| == |inputs|
    ensures forall i :: 0 <= i < |inputs| ==> r[i] == SanitizePromptInput(inputs[i], maxItemLength)
  {
    if inputs == [] then [] else [SanitizePromptInput(inputs[0], maxItemLength)] + SanitizeArray(inputs[1..], maxItemLength)
  }

  lemma SanitizeArrayIdempotent(inputs: seq<string>, maxItemLength: int)
    requires maxItemLength >= 0
    ensures SanitizeArray(SanitizeArray(inputs, maxItemLength), maxItemLength) == SanitizeArray(inputs, maxItemLength)
  {
    var once := SanitizeArray(inputs, maxItemLength);
    forall i | 0 <= i < |inputs|
      ensures SanitizePromptInput(once[i], maxItemLength) == once[i]
    {
      SanitizeIdempotent(inputs[i], maxItemLength);
    }
  }
}
