/** The answer post-processing of the RAG service (`RAGService._clean_response`):
    seven string rewrites applied in a fixed order, each written out here as an
    explicit function over `string` with the semantics of the Python regular
    expression or string method it stands for. */
module ResponseCleaner {
  import opened Wrappers

  // ---------------------------------------------------------------------------
  // Character classes

  /** Python's `str.isspace`, which is also what `\s` matches in a `str`
      pattern and what `str.strip()` removes. */
  predicate IsSpace(c: char) {
    || ('\t' <= c <= '\r')
    || ('\U{1C}' <= c <= ' ')
    || c == '\U{85}' || c == '\U{A0}' || c == '\U{1680}'
    || ('\U{2000}' <= c <= '\U{200A}')
    || c == '\U{2028}' || c == '\U{2029}' || c == '\U{202F}' || c == '\U{205F}'
    || c == '\U{3000}'
  }

  predicate AllSpace(t: string) {
    forall i :: 0 <= i < |t| ==> IsSpace(t[i])
  }

  /** The character class `["\']`. */
  predicate IsQuote(c: char) {
    c == '"' || c == '\''
  }

  // ---------------------------------------------------------------------------
  // Step 1 and the final step: `str.strip()`

  /** Length of the longest all-whitespace prefix. */
  function LeadingSpaces(s: string): (n: nat)
    ensures n <= |s| && AllSpace(s[..n])
    ensures n < |s| ==> !IsSpace(s[n])
  {
    if s != [] && IsSpace(s[0]) then
      var n := 1 + LeadingSpaces(s[1..]);
      assert s[..n] == [s[0]] + s[1..][..n - 1];
      n
    else 0
  }

  function StripStart(s: string): (r: string)
    ensures r == s[LeadingSpaces(s)..]
    ensures r != [] ==> !IsSpace(r[0])
  {
    if s != [] && IsSpace(s[0]) then StripStart(s[1..]) else s
  }

  function StripEnd(s: string): (r: string)
    ensures |r| <= |s| && r == s[..|r|]
    ensures AllSpace(s[|r|..])
    ensures r != [] ==> !IsSpace(r[|r| - 1])
  {
    if s != [] && IsSpace(s[|s| - 1]) then
      var r := StripEnd(s[..|s| - 1]);
      assert s[|r|..] == s[..|s| - 1][|r|..] + [s[|s| - 1]];
      r
    else s
  }

  /** `str.strip()`: the text between the whitespace runs at both ends. */
  function Strip(s: string): (r: string)
    ensures var i := LeadingSpaces(s);
      i + |r| <= |s| && r == s[i..i + |r|] && AllSpace(s[i + |r|..])
    ensures r != [] ==> !IsSpace(r[0]) && !IsSpace(r[|r| - 1])
  {
    var i := LeadingSpaces(s);
    var t := StripStart(s);
    var r := StripEnd(t);
    SliceOfSuffix(s, i, |r|);
    r
  }

  lemma SliceOfSuffix(s: string, i: nat, k: nat)
    requires i + k <= |s|
    ensures s[i..][..k] == s[i..i + k] && s[i..][k..] == s[i + k..]
  {
  }

  // ---------------------------------------------------------------------------
  // Step 2: re.sub(r'\n\s*\n\s*\n+', '\n\n', s)

  function NewlineCount(t: string): nat {
    multiset(t)['\n']
  }

  /** Index of the last newline of `t`. */
  function LastNewline(t: string): (k: nat)
    requires NewlineCount(t) > 0
    ensures k < |t| && t[k] == '\n'
    ensures forall i :: k < i < |t| ==> t[i] != '\n'
  {
    assert t == t[..|t| - 1] + [t[|t| - 1]];
    if t[|t| - 1] == '\n' then |t| - 1 else LastNewline(t[..|t| - 1])
  }

  /** Newlines in the whitespace run that starts `t`. */
  function LeadingRunNewlines(t: string): nat {
    NewlineCount(t[..LeadingSpaces(t)])
  }

  /** At a string starting with a newline, the regex matches exactly when the
      whitespace run starting there holds three newlines or more; the match
      then ends just after the run's last newline. */
  predicate BlankLinesAt(s: string) {
    s != [] && s[0] == '\n' && LeadingRunNewlines(s) >= 3
  }

  function BlankLinesEnd(s: string): (e: nat)
    requires BlankLinesAt(s)
    ensures 3 <= e <= LeadingSpaces(s) && s[e - 1] == '\n'
    ensures AllSpace(s[..e])
    ensures '\n' !in s[e..LeadingSpaces(s)]
  {
    var n := LeadingSpaces(s);
    var k := LastNewline(s[..n]);
    assert s[..n] == s[..k + 1] + s[k + 1..n];
    assert forall i :: k < i < n ==> s[..n][i] != '\n';
    assert '\n' !in s[k + 1..n];
    assert k + 1 >= multiset(s[..k + 1])['\n'] by {
      MultisetCountBound(s[..k + 1], '\n');
    }
    k + 1
  }

  lemma MultisetCountBound(t: string, c: char)
    ensures multiset(t)[c] <= |t|
  {
    if t != [] {
      assert t == [t[0]] + t[1..];
      MultisetCountBound(t[1..], c);
    }
  }

  /** The leftmost-first scan `re.sub` performs for this pattern. */
  function CollapseBlankLines(s: string): (r: string)
    ensures |r| <= |s|
    ensures s != [] ==> r != [] && r[0] == s[0]
    decreases |s|
  {
    if s == [] then []
    else if BlankLinesAt(s) then "\n\n" + CollapseBlankLines(s[BlankLinesEnd(s)..])
    else [s[0]] + CollapseBlankLines(s[1..])
  }

  /** The pattern of line 51 matches at no position of `t`. */
  predicate NoBlankLines(t: string) {
    forall k :: 0 <= k < |t| ==> !BlankLinesAt(t[k..])
  }

  lemma RunNewlinesCons(c: char, x: string)
    requires IsSpace(c)
    ensures LeadingRunNewlines([c] + x) == (if c == '\n' then 1 else 0) + LeadingRunNewlines(x)
  {
    var s := [c] + x;
    assert s[1..] == x;
    var n := LeadingSpaces(x);
    assert LeadingSpaces(s) == 1 + n;
    assert s[..1 + n] == [c] + x[..n];
  }

  /** What follows a match starts with a whitespace run holding no newline. */
  lemma BlankLinesEndRun(s: string)
    requires BlankLinesAt(s)
    ensures LeadingRunNewlines(s[BlankLinesEnd(s)..]) == 0
  {
    var e, n := BlankLinesEnd(s), LeadingSpaces(s);
    var t := s[e..];
    assert t[..n - e] == s[e..n];
    assert AllSpace(s[e..n]) by {
      forall i | 0 <= i < n - e ensures IsSpace(s[e..n][i]) {
        assert s[e..n][i] == s[..n][e + i];
      }
    }
    LeadingSpacesOf(t, n - e);
  }

  /** A rewritten text starts with no more newlines in its first whitespace
      run than the original did. */
  lemma {:induction false} CollapseBlankLinesRunNewlines(t: string)
    ensures LeadingRunNewlines(CollapseBlankLines(t)) <= LeadingRunNewlines(t)
    decreases |t|
  {
    if t == [] {
    } else if BlankLinesAt(t) {
      CollapseBlankLinesRunNewlines(t[BlankLinesEnd(t)..]);
      RunNewlinesAtMatch(t);
    } else if IsSpace(t[0]) {
      CollapseBlankLinesRunNewlines(t[1..]);
      CollapseBlankLinesCopy(t);
      RunNewlinesAtSpace(t);
    } else {
      assert LeadingSpaces(CollapseBlankLines(t)) == 0;
    }
  }

  lemma RunNewlinesAtMatch(t: string)
    requires BlankLinesAt(t)
    requires LeadingRunNewlines(CollapseBlankLines(t[BlankLinesEnd(t)..])) <= LeadingRunNewlines(t[BlankLinesEnd(t)..])
    ensures LeadingRunNewlines(CollapseBlankLines(t)) == 2 < LeadingRunNewlines(t)
  {
    BlankLinesEndRun(t);
    CollapseBlankLinesMatch(t);
    RunNewlinesTwo(CollapseBlankLines(t[BlankLinesEnd(t)..]));
  }

  lemma RunNewlinesTwo(rest: string)
    requires LeadingRunNewlines(rest) == 0
    ensures LeadingRunNewlines("\n\n" + rest) == 2
  {
    assert "\n\n" + rest == ['\n'] + (['\n'] + rest);
    RunNewlinesCons('\n', ['\n'] + rest);
    RunNewlinesCons('\n', rest);
  }

  lemma RunNewlinesAtSpace(t: string)
    requires t != [] && IsSpace(t[0])
    requires CollapseBlankLines(t) == [t[0]] + CollapseBlankLines(t[1..])
    requires LeadingRunNewlines(CollapseBlankLines(t[1..])) <= LeadingRunNewlines(t[1..])
    ensures LeadingRunNewlines(CollapseBlankLines(t)) <= LeadingRunNewlines(t)
  {
    RunNewlinesCons(t[0], CollapseBlankLines(t[1..]));
    RunNewlinesTail(t);
  }

  lemma RunNewlinesTail(t: string)
    requires t != [] && IsSpace(t[0])
    ensures LeadingRunNewlines(t) == (if t[0] == '\n' then 1 else 0) + LeadingRunNewlines(t[1..])
  {
    RunNewlinesCons(t[0], t[1..]);
    assert [t[0]] + t[1..] == t;
  }

  /** After line 51 the pattern matches nowhere: no whitespace run that
      starts at a newline holds three newlines. */
  lemma {:induction false} CollapseBlankLinesNoMatch(s: string)
    ensures NoBlankLines(CollapseBlankLines(s))
    decreases |s|
  {
    if s == [] {
    } else if BlankLinesAt(s) {
      var e := BlankLinesEnd(s);
      CollapseBlankLinesNoMatch(s[e..]);
      BlankLinesEndRun(s);
      CollapseBlankLinesRunNewlines(s[e..]);
      NoMatchAfterBlankLine(CollapseBlankLines(s[e..]));
    } else {
      CollapseBlankLinesNoMatch(s[1..]);
      if s[0] == '\n' {
        CollapseBlankLinesRunNewlines(s[1..]);
        assert s == [s[0]] + s[1..];
        RunNewlinesCons('\n', s[1..]);
      }
      NoMatchAfterChar(s[0], CollapseBlankLines(s[1..]));
    }
  }

  lemma NoMatchAfterBlankLine(rest: string)
    requires NoBlankLines(rest) && LeadingRunNewlines(rest) == 0
    ensures NoBlankLines("\n\n" + rest)
  {
    var r := "\n\n" + rest;
    assert r[1..] == ['\n'] + rest;
    RunNewlinesCons('\n', rest);
    assert r == ['\n'] + r[1..];
    RunNewlinesCons('\n', r[1..]);
    assert r[0..] == r;
    forall k | 2 <= k < |r| ensures !BlankLinesAt(r[k..]) {
      assert r[k..] == rest[k - 2..];
    }
  }

  lemma NoMatchAfterChar(c: char, rest: string)
    requires NoBlankLines(rest)
    requires c == '\n' ==> LeadingRunNewlines(rest) < 2
    ensures NoBlankLines([c] + rest)
  {
    var r := [c] + rest;
    if c == '\n' {
      RunNewlinesCons('\n', rest);
    }
    assert r[0..] == r;
    forall k | 1 <= k < |r| ensures !BlankLinesAt(r[k..]) {
      assert r[k..] == rest[k - 1..];
    }
  }

  /** Where the pattern matches nowhere, line 51 changes nothing. */
  lemma {:induction false} CollapseBlankLinesWithoutMatch(t: string)
    requires NoBlankLines(t)
    ensures CollapseBlankLines(t) == t
  {
    if t != [] {
      assert t[0..] == t;
      assert NoBlankLines(t[1..]) by {
        forall k | 0 <= k < |t| - 1 ensures !BlankLinesAt(t[1..][k..]) {
          assert t[1..][k..] == t[k + 1..];
        }
      }
      CollapseBlankLinesWithoutMatch(t[1..]);
      assert [t[0]] + t[1..] == t;
    }
  }

  /** Applying line 51 twice is applying it once. */
  lemma CollapseBlankLinesIdempotent(s: string)
    ensures CollapseBlankLines(CollapseBlankLines(s)) == CollapseBlankLines(s)
  {
    CollapseBlankLinesNoMatch(s);
    CollapseBlankLinesWithoutMatch(CollapseBlankLines(s));
  }

  lemma LeadingSpacesAppend(a: string, t: string)
    requires a != [] && !IsSpace(a[|a| - 1])
    ensures LeadingSpaces(a + t) == LeadingSpaces(a) < |a|
  {
    var n := LeadingSpaces(a);
    assert !AllSpace(a);
    assert a[..|a|] == a;
    assert (a + t)[..n] == a[..n];
    LeadingSpacesOf(a + t, n);
  }

  /** A text ending in a non-whitespace character is rewritten on its own:
      no match straddles the join. */
  lemma {:induction false} CollapseBlankLinesAppend(a: string, t: string)
    requires a == [] || !IsSpace(a[|a| - 1])
    ensures CollapseBlankLines(a + t) == CollapseBlankLines(a) + CollapseBlankLines(t)
    decreases |a|
  {
    if a == [] {
      assert a + t == t;
    } else if BlankLinesAt(a) {
      LeadingSpacesAppend(a, t);
      var rest := a[BlankLinesEnd(a)..];
      assert rest != [] && rest[|rest| - 1] == a[|a| - 1];
      CollapseBlankLinesAppend(rest, t);
      AppendAfterMatch(a, t);
    } else {
      var rest := a[1..];
      assert rest == [] || rest[|rest| - 1] == a[|a| - 1];
      CollapseBlankLinesAppend(rest, t);
      AppendAfterChar(a, t);
    }
  }

  lemma AppendAfterMatch(a: string, t: string)
    requires a != [] && !IsSpace(a[|a| - 1]) && BlankLinesAt(a)
    requires var rest := a[BlankLinesEnd(a)..];
      CollapseBlankLines(rest + t) == CollapseBlankLines(rest) + CollapseBlankLines(t)
    ensures CollapseBlankLines(a + t) == CollapseBlankLines(a) + CollapseBlankLines(t)
  {
    var e := BlankLinesEnd(a);
    SameFirstStep(a, t);
    SuffixOfAppend(a, t, e);
    CollapseBlankLinesMatch(a + t);
    CollapseBlankLinesMatch(a);
    PrependAppend("\n\n", CollapseBlankLines(a[e..]), CollapseBlankLines(t));
  }

  lemma AppendAfterChar(a: string, t: string)
    requires a != [] && !IsSpace(a[|a| - 1]) && !BlankLinesAt(a)
    requires CollapseBlankLines(a[1..] + t) == CollapseBlankLines(a[1..]) + CollapseBlankLines(t)
    ensures CollapseBlankLines(a + t) == CollapseBlankLines(a) + CollapseBlankLines(t)
  {
    SameFirstStep(a, t);
    SuffixOfAppend(a, t, 1);
    CollapseBlankLinesCopy(a + t);
    CollapseBlankLinesCopy(a);
    PrependAppend([a[0]], CollapseBlankLines(a[1..]), CollapseBlankLines(t));
  }

  /** Before a non-whitespace character, what follows cannot change where
      the pattern matches. */
  lemma SameFirstStep(a: string, t: string)
    requires a != [] && !IsSpace(a[|a| - 1])
    ensures (a + t)[0] == a[0]
    ensures BlankLinesAt(a + t) == BlankLinesAt(a)
    ensures BlankLinesAt(a) ==> BlankLinesEnd(a + t) == BlankLinesEnd(a)
  {
    LeadingSpacesAppend(a, t);
    var n := LeadingSpaces(a);
    assert (a + t)[..n] == a[..n];
  }

  lemma SuffixOfAppend(a: string, t: string, e: nat)
    requires e <= |a|
    ensures (a + t)[e..] == a[e..] + t
  {
  }

  lemma CollapseBlankLinesCopy(s: string)
    requires s != [] && !BlankLinesAt(s)
    ensures CollapseBlankLines(s) == [s[0]] + CollapseBlankLines(s[1..])
  {
  }

  /** Text without a newline is copied as it is. */
  lemma {:induction false} CollapseBlankLinesPlainPrefix(p: string, x: string)
    requires '\n' !in p
    ensures CollapseBlankLines(p + x) == p + CollapseBlankLines(x)
  {
    if p == [] {
      assert p + x == x;
    } else {
      var s := p + x;
      assert s[0] == p[0] && p[0] in p;
      assert s[1..] == p[1..] + x && '\n' !in p[1..];
      CollapseBlankLinesPlainPrefix(p[1..], x);
      assert CollapseBlankLines(s) == [p[0]] + CollapseBlankLines(p[1..] + x);
      PrependAppend([p[0]], p[1..], CollapseBlankLines(x));
      assert [p[0]] + p[1..] == p;
    }
  }

  /** A whole whitespace run that starts and ends with a newline and holds
      three newlines or more becomes one blank line `"\n\n"`; the spaces on
      either side of it are kept. */
  lemma CollapseBlankLinesRun(p: string, run: string, q: string, b: string)
    requires AllSpace(p) && '\n' !in p
    requires AllSpace(run) && run != [] && run[0] == '\n' && run[|run| - 1] == '\n'
    requires NewlineCount(run) >= 3
    requires AllSpace(q) && '\n' !in q
    requires b == [] || !IsSpace(b[0])
    ensures CollapseBlankLines(p + run + q + b) == p + "\n\n" + q + CollapseBlankLines(b)
  {
    var x := run + q + b;
    var t := CollapseBlankLines(b);
    AppendAssociative(p, run, q);
    AppendAssociative(p, run + q, b);
    CollapseBlankLinesPlainPrefix(p, x);
    BlankRunStep(run, q, b);
    CollapseBlankLinesPlainPrefix(q, b);
    PrependAppend("\n\n", q, t);
    PrependAppend(p, "\n\n" + q, t);
    AppendAssociative(p, "\n\n", q);
  }

  lemma BlankRunStep(run: string, q: string, b: string)
    requires AllSpace(run) && run != [] && run[0] == '\n' && run[|run| - 1] == '\n'
    requires NewlineCount(run) >= 3
    requires AllSpace(q) && '\n' !in q
    requires b == [] || !IsSpace(b[0])
    ensures CollapseBlankLines(run + q + b) == "\n\n" + CollapseBlankLines(q + b)
  {
    var x := run + q + b;
    BlankRunEnd(run, q, b);
    CollapseBlankLinesMatch(x);
    DropPrefix(run, q, b);
  }

  lemma CollapseBlankLinesMatch(s: string)
    requires BlankLinesAt(s)
    ensures CollapseBlankLines(s) == "\n\n" + CollapseBlankLines(s[BlankLinesEnd(s)..])
  {
  }

  lemma DropPrefix(x: string, y: string, z: string)
    ensures (x + y + z)[|x|..] == y + z
  {
  }

  /** Where the match of such a run ends: after its last newline. */
  lemma BlankRunEnd(run: string, q: string, b: string)
    requires AllSpace(run) && run != [] && run[0] == '\n' && run[|run| - 1] == '\n'
    requires NewlineCount(run) >= 3
    requires AllSpace(q) && '\n' !in q
    requires b == [] || !IsSpace(b[0])
    ensures var x := run + q + b;
      BlankLinesAt(x) && BlankLinesEnd(x) == |run|
  {
    var w := run + q;
    var x := w + b;
    assert AllSpace(w) by {
      forall i | 0 <= i < |w| ensures IsSpace(w[i]) {
        if i >= |run| {
          assert w[i] == q[i - |run|];
        } else {
          assert w[i] == run[i];
        }
      }
    }
    assert x[..|w|] == w;
    LeadingSpacesOf(x, |w|);
    assert multiset(w) == multiset(run) + multiset(q);
    assert NewlineCount(q) == 0;
    assert BlankLinesAt(x);
    var k := LastNewline(w);
    assert w[|run| - 1] == '\n';
    forall i | |run| <= i < |w| ensures w[i] != '\n' {
      assert w[i] == q[i - |run|];
    }
    assert k == |run| - 1;
  }

  // ---------------------------------------------------------------------------
  // Step 3: re.sub(r'(?<!\n)\n(?!\n)', ' ', s)

  /** A newline neither preceded nor followed by another newline. */
  predicate LoneNewlineAt(s: string, i: nat)
    requires i < |s|
  {
    s[i] == '\n' && (i == 0 || s[i - 1] != '\n') && (i == |s| - 1 || s[i + 1] != '\n')
  }

  /** Every lone newline becomes a space; after line 54 every newline left
      has a newline neighbour. */
  function JoinLines(s: string): (r: string)
    ensures |r| == |s|
    ensures forall i :: 0 <= i < |s| ==> r[i] == if LoneNewlineAt(s, i) then ' ' else s[i]
    ensures forall i :: 0 <= i < |r| && r[i] == '\n' ==>
      (i > 0 && r[i - 1] == '\n') || (i < |r| - 1 && r[i + 1] == '\n')
  {
    var r := seq(|s|, i requires 0 <= i < |s| => if LoneNewlineAt(s, i) then ' ' else s[i]);
    LoneNewlinesGone(s, r);
    r
  }

  lemma LoneNewlinesGone(s: string, r: string)
    requires |r| == |s|
    requires forall i :: 0 <= i < |s| ==> r[i] == if LoneNewlineAt(s, i) then ' ' else s[i]
    ensures forall i :: 0 <= i < |r| && r[i] == '\n' ==>
      (i > 0 && r[i - 1] == '\n') || (i < |r| - 1 && r[i + 1] == '\n')
  {
    forall i | 0 <= i < |r| && r[i] == '\n'
      ensures (i > 0 && r[i - 1] == '\n') || (i < |r| - 1 && r[i + 1] == '\n')
    {
      assert !LoneNewlineAt(s, i);
      if i > 0 && s[i - 1] == '\n' {
        assert !LoneNewlineAt(s, i - 1);
      } else {
        assert !LoneNewlineAt(s, i + 1);
      }
    }
  }

  /** Turning some newlines into spaces never adds a newline to a
      whitespace run. */
  lemma {:induction false} RunNewlinesOfJoined(t: string, u: string)
    requires |u| == |t|
    requires forall i :: 0 <= i < |t| ==> u[i] == t[i] || (t[i] == '\n' && u[i] == ' ')
    ensures LeadingRunNewlines(u) <= LeadingRunNewlines(t)
  {
    if t != [] && IsSpace(t[0]) {
      assert IsSpace(u[0]);
      assert forall i :: 0 <= i < |t| - 1 ==> t[1..][i] == t[i + 1] && u[1..][i] == u[i + 1];
      RunNewlinesOfJoined(t[1..], u[1..]);
      assert t == [t[0]] + t[1..] && u == [u[0]] + u[1..];
      RunNewlinesCons(t[0], t[1..]);
      RunNewlinesCons(u[0], u[1..]);
    } else if t != [] {
      assert u[0] == t[0];
    }
  }

  /** Line 54 creates no place where line 51's pattern would match again. */
  lemma JoinLinesKeepsNoMatch(s: string)
    requires NoBlankLines(s)
    ensures NoBlankLines(JoinLines(s))
  {
    var r := JoinLines(s);
    forall k | 0 <= k < |r| ensures !BlankLinesAt(r[k..]) {
      if r[k] == '\n' {
        assert s[k] == '\n';
        assert !BlankLinesAt(s[k..]);
        assert forall i :: 0 <= i < |s| - k ==> r[k..][i] == r[k + i] && s[k..][i] == s[k + i];
        RunNewlinesOfJoined(s[k..], r[k..]);
      }
    }
  }

  // ---------------------------------------------------------------------------
  // Step 4: re.sub(r' +', ' ', s)

  function CollapseSpaces(s: string): (r: string)
    ensures |r| <= |s|
    ensures s != [] ==> r != [] && r[0] == s[0]
  {
    if s == [] then []
    else if |s| >= 2 && s[0] == ' ' && s[1] == ' ' then CollapseSpaces(s[1..])
    else [s[0]] + CollapseSpaces(s[1..])
  }

  predicate NoDoubleSpace(t: string) {
    forall i :: 0 <= i < |t| - 1 ==> !(t[i] == ' ' && t[i + 1] == ' ')
  }

  /** Line 57 leaves no two consecutive spaces. */
  lemma {:induction false} CollapseSpacesNoDouble(s: string)
    ensures NoDoubleSpace(CollapseSpaces(s))
  {
    if s == [] {
    } else if |s| >= 2 && s[0] == ' ' && s[1] == ' ' {
      CollapseSpacesNoDouble(s[1..]);
    } else {
      CollapseSpacesNoDouble(s[1..]);
      var tail := CollapseSpaces(s[1..]);
      assert CollapseSpaces(s) == [s[0]] + tail;
    }
  }

  /** A text not ending in a space is rewritten on its own. */
  lemma {:induction false} CollapseSpacesAppend(a: string, t: string)
    requires a == [] || a[|a| - 1] != ' '
    ensures CollapseSpaces(a + t) == CollapseSpaces(a) + CollapseSpaces(t)
  {
    if a == [] {
      assert a + t == t;
    } else {
      var s := a + t;
      var rest := a[1..];
      assert s[0] == a[0] && s[1..] == rest + t;
      assert rest == [] || rest[|rest| - 1] == a[|a| - 1];
      CollapseSpacesAppend(rest, t);
      if |a| >= 2 && a[0] == ' ' && a[1] == ' ' {
        assert s[1] == a[1];
      } else {
        assert !(|s| >= 2 && s[0] == ' ' && s[1] == ' ') by {
          if |a| >= 2 {
            assert s[1] == a[1];
          }
        }
        assert CollapseSpaces(s) == [a[0]] + CollapseSpaces(rest + t);
        PrependAppend([a[0]], CollapseSpaces(rest), CollapseSpaces(t));
      }
    }
  }

  /** A whole run of spaces becomes one space. */
  lemma {:induction false} CollapseSpacesRun(run: string, b: string)
    requires run != [] && forall i :: 0 <= i < |run| ==> run[i] == ' '
    requires b == [] || b[0] != ' '
    ensures CollapseSpaces(run + b) == " " + CollapseSpaces(b)
  {
    var s := run + b;
    assert s[0] == ' ' && s[1..] == run[1..] + b;
    if |run| >= 2 {
      assert s[1] == ' ';
      CollapseSpacesRun(run[1..], b);
    } else {
      assert run[1..] + b == b;
    }
  }

  /** Line 57 in one piece: the text on either side of a run of spaces is
      kept as its own rewrite, and the run becomes one space. */
  lemma CollapseSpacesSplit(a: string, run: string, b: string)
    requires a == [] || a[|a| - 1] != ' '
    requires run != [] && forall i :: 0 <= i < |run| ==> run[i] == ' '
    requires b == [] || b[0] != ' '
    ensures CollapseSpaces(a + run + b) == CollapseSpaces(a) + " " + CollapseSpaces(b)
  {
    CollapseSpacesAppend(a, run + b);
    CollapseSpacesRun(run, b);
    AppendAssociative(a, run, b);
    PrependAppend(CollapseSpaces(a), " ", CollapseSpaces(b));
  }

  // ---------------------------------------------------------------------------
  // Step 5: re.sub(r'^["\']+|["\']+$', '', s)

  function LeadingQuotes(s: string): (n: nat)
    ensures n <= |s|
    ensures forall i :: 0 <= i < n ==> IsQuote(s[i])
    ensures n < |s| ==> !IsQuote(s[n])
  {
    if s != [] && IsQuote(s[0]) then 1 + LeadingQuotes(s[1..]) else 0
  }

  function TrailingQuotes(s: string): (n: nat)
    ensures n <= |s|
    ensures forall i :: |s| - n <= i < |s| ==> IsQuote(s[i])
    ensures n < |s| ==> !IsQuote(s[|s| - n - 1])
  {
    if s != [] && IsQuote(s[|s| - 1]) then 1 + TrailingQuotes(s[..|s| - 1]) else 0
  }

  /** The first alternative removes the quote run at the start. The second
      removes a quote run that reaches the end, or that reaches a final
      newline: without MULTILINE, Python's `$` also matches just before a
      newline that ends the string. */
  function StripEdgeQuotes(s: string): (r: string)
    ensures |r| <= |s|
  {
    var a := LeadingQuotes(s);
    if a == |s| then []
    else
      var t := s[a..];
      if IsQuote(t[|t| - 1]) then t[..|t| - TrailingQuotes(t)]
      else if t[|t| - 1] == '\n' then
        var body := t[..|t| - 1];
        body[..|body| - TrailingQuotes(body)] + "\n"
      else t
  }

  /** After line 60 the text neither starts nor ends with a quote. */
  lemma StripEdgeQuotesEdges(s: string)
    ensures var r := StripEdgeQuotes(s);
      r != [] ==> !IsQuote(r[0]) && !IsQuote(r[|r| - 1])
  {
    var a := LeadingQuotes(s);
    if a < |s| {
      var t := s[a..];
      if !IsQuote(t[|t| - 1]) && t[|t| - 1] == '\n' {
        var body := t[..|t| - 1];
        assert body != [] ==> body[0] == t[0];
      }
    }
  }

  /** Python's `$` also matches before a final newline: an input ending with
      a newline keeps it, and no quote is left just before it. */
  lemma StripEdgeQuotesFinalNewline(s: string)
    requires s != [] && s[|s| - 1] == '\n'
    ensures var r := StripEdgeQuotes(s);
      r != [] && r[|r| - 1] == '\n' && (|r| >= 2 ==> !IsQuote(r[|r| - 2]))
  {
    var a := LeadingQuotes(s);
    assert a < |s|;
    var t := s[a..];
    assert t[|t| - 1] == '\n';
    var body := t[..|t| - 1];
    var kept := body[..|body| - TrailingQuotes(body)];
    assert StripEdgeQuotes(s) == kept + "\n";
    KeptEndsClean(body);
  }

  /** What is left of `body` once its trailing quotes go, with a newline
      put back after it, has no quote just before that newline. */
  lemma KeptEndsClean(body: string)
    ensures var r := body[..|body| - TrailingQuotes(body)] + "\n";
      r[|r| - 1] == '\n' && (|r| >= 2 ==> !IsQuote(r[|r| - 2]))
  {
    var n := TrailingQuotes(body);
    var kept := body[..|body| - n];
    if kept != [] {
      assert (kept + "\n")[|kept| - 1] == body[|body| - n - 1];
    }
  }

  /** The two ends are handled independently: whatever quote runs surround a
      body that neither starts nor ends with a quote (nor with a newline) are
      removed, and only they. */
  lemma {:induction false} StripEdgeQuotesRuns(q1: string, m: string, q2: string)
    requires forall i :: 0 <= i < |q1| ==> IsQuote(q1[i])
    requires forall i :: 0 <= i < |q2| ==> IsQuote(q2[i])
    requires m != [] && !IsQuote(m[0]) && !IsQuote(m[|m| - 1]) && m[|m| - 1] != '\n'
    ensures StripEdgeQuotes(q1 + m + q2) == m
  {
    var s := q1 + m + q2;
    LeadingQuotesOf(q1, m + q2);
    assert s == q1 + (m + q2);
    var t := s[|q1|..];
    assert t == m + q2;
    TrailingQuotesOf(m, q2);
  }

  lemma {:induction false} LeadingQuotesOf(q: string, rest: string)
    requires forall i :: 0 <= i < |q| ==> IsQuote(q[i])
    requires rest != [] && !IsQuote(rest[0])
    ensures LeadingQuotes(q + rest) == |q|
  {
    if q != [] {
      assert (q + rest)[1..] == q[1..] + rest;
      LeadingQuotesOf(q[1..], rest);
    } else {
      assert q + rest == rest;
    }
  }

  lemma {:induction false} TrailingQuotesOf(m: string, q: string)
    requires forall i :: 0 <= i < |q| ==> IsQuote(q[i])
    requires m != [] && !IsQuote(m[|m| - 1])
    ensures TrailingQuotes(m + q) == |q|
  {
    if q != [] {
      assert (m + q)[..|m + q| - 1] == m + q[..|q| - 1];
      TrailingQuotesOf(m, q[..|q| - 1]);
    } else {
      assert m + q == m;
    }
  }

  // ---------------------------------------------------------------------------
  // Step 6: re.sub(r'\s*\([^)]*Section[^)]*\)\s*$', '', s)

  predicate SectionAt(t: string, k: int) {
    0 <= k <= |t| - 7 && t[k..k + 7] == "Section"
  }

  /** The literal `Section` occurs in `t`. */
  predicate ContainsSection(t: string) {
    exists k | 0 <= k <= |t| - 7 :: SectionAt(t, k)
  }

  predicate NoCloseParen(t: string) {
    forall i :: 0 <= i < |t| ==> t[i] != ')'
  }

  /** Position of the first ')' at or after `from`. */
  function FindCloseParen(s: string, from: nat): (r: Option<nat>)
    requires from <= |s|
    ensures r.None? ==> NoCloseParen(s[from..])
    ensures r.Some? ==> from <= r.value < |s| && s[r.value] == ')' && NoCloseParen(s[from..r.value])
    decreases |s| - from
  {
    if from == |s| then None
    else if s[from] == ')' then Some(from)
    else
      var r := FindCloseParen(s, from + 1);
      assert s[from..] == [s[from]] + s[from + 1..];
      if r.Some? then
        assert s[from..r.value] == [s[from]] + s[from + 1..r.value];
        r
      else r
  }

  /** Whether the pattern matches at position `p`: the whitespace run from `p`
      is followed by '(', the first ')' after it closes a text holding
      "Section", and only whitespace follows. */
  predicate CitationAt(s: string, p: nat)
    requires p <= |s|
  {
    var q := p + LeadingSpaces(s[p..]);
    q < |s| && s[q] == '(' &&
    var close := FindCloseParen(s, q + 1);
    close.Some? && ContainsSection(s[q + 1..close.value]) && AllSpace(s[close.value + 1..])
  }

  /** The leftmost position where the pattern matches, scanning from `p`. */
  function FirstCitation(s: string, p: nat): (r: Option<nat>)
    requires p <= |s|
    ensures r.Some? ==> p <= r.value < |s| && CitationAt(s, r.value)
    ensures forall i :: p <= i <= |s| && (r.None? || i < r.value) ==> !CitationAt(s, i)
    decreases |s| - p
  {
    if CitationAt(s, p) then Some(p)
    else if p == |s| then None
    else FirstCitation(s, p + 1)
  }

  /** The match always runs to the end of the text, so the rewrite cuts the
      text at the leftmost match. */
  function StripCitation(s: string): (r: string)
    ensures |r| <= |s| && r == s[..|r|]
  {
    var first := FirstCitation(s, 0);
    if first.Some? then
      assert first.value < |s|;
      s[..first.value]
    else s
  }

  /** Reference shape of the tail of `s` from `p`: whitespace, '(', a text
      without ')' holding "Section", ')', whitespace to the end. */
  predicate CitationTail(s: string, p: nat) {
    exists q, c :: p <= q < c < |s| && AllSpace(s[p..q]) && s[q] == '(' && s[c] == ')'
                   && NoCloseParen(s[q + 1..c]) && ContainsSection(s[q + 1..c])
                   && AllSpace(s[c + 1..])
  }

  /** The scan's test agrees with the reference shape. */
  lemma CitationAtIffTail(s: string, p: nat)
    requires p <= |s|
    ensures CitationAt(s, p) <==> CitationTail(s, p)
  {
    if CitationAt(s, p) {
      CitationAtHasTail(s, p);
    }
    if CitationTail(s, p) {
      var q, c :| p <= q < c < |s| && AllSpace(s[p..q]) && s[q] == '(' && s[c] == ')'
                  && NoCloseParen(s[q + 1..c]) && ContainsSection(s[q + 1..c])
                  && AllSpace(s[c + 1..]);
      CitationPartsMatch(s, p, q, c);
    }
  }

  lemma CitationAtHasTail(s: string, p: nat)
    requires p <= |s| && CitationAt(s, p)
    ensures CitationTail(s, p)
  {
    var q := p + LeadingSpaces(s[p..]);
    var c := FindCloseParen(s, q + 1).value;
    assert s[p..q] == s[p..][..q - p];
    assert AllSpace(s[p..q]);
    assert p <= q < c < |s| && s[q] == '(' && s[c] == ')';
    assert NoCloseParen(s[q + 1..c]) && ContainsSection(s[q + 1..c]) && AllSpace(s[c + 1..]);
  }

  lemma CitationPartsMatch(s: string, p: nat, q: nat, c: nat)
    requires p <= q < c < |s| && AllSpace(s[p..q]) && s[q] == '(' && s[c] == ')'
    requires NoCloseParen(s[q + 1..c]) && ContainsSection(s[q + 1..c]) && AllSpace(s[c + 1..])
    ensures CitationAt(s, p)
  {
    assert s[p..][..q - p] == s[p..q];
    LeadingSpacesOf(s[p..], q - p);
    FindCloseParenOf(s, q + 1, c);
  }

  lemma {:induction false} LeadingSpacesOf(t: string, i: nat)
    requires i <= |t| && AllSpace(t[..i]) && (i < |t| ==> !IsSpace(t[i]))
    ensures LeadingSpaces(t) == i
  {
    if i > 0 {
      assert t[..i][0] == t[0];
      var u := t[1..][..i - 1];
      assert AllSpace(u) by {
        forall j | 0 <= j < |u| ensures IsSpace(u[j]) {
          assert u[j] == t[..i][j + 1];
        }
      }
      LeadingSpacesOf(t[1..], i - 1);
    }
  }

  lemma {:induction false} FindCloseParenOf(s: string, from: nat, c: nat)
    requires from <= c < |s| && s[c] == ')' && NoCloseParen(s[from..c])
    ensures FindCloseParen(s, from) == Some(c)
    decreases c - from
  {
    if from < c {
      assert s[from..c][0] == s[from];
      assert s[from + 1..c] == s[from..c][1..];
      FindCloseParenOf(s, from + 1, c);
    }
  }

  /** Line 63 only removes a tail, leftmost-first: the removed tail has the
      citation shape, no longer tail has it, and nothing before it changes. */
  lemma StripCitationRemovesTail(s: string)
    ensures var r := StripCitation(s);
      && r == s[..|r|]
      && (r != s ==> CitationTail(s, |r|))
      && (forall p :: 0 <= p < |r| ==> !CitationTail(s, p))
      && (r == s ==> forall p :: 0 <= p <= |s| ==> !CitationTail(s, p))
  {
    var r := StripCitation(s);
    var fc := FirstCitation(s, 0);
    if fc.Some? {
      CitationAtIffTail(s, fc.value);
    }
    forall p | 0 <= p <= |s| && (fc.None? || p < fc.value)
      ensures !CitationTail(s, p)
    {
      CitationAtIffTail(s, p);
    }
  }

  /** A trailing parenthetical holding "Section", with no ')' inside, goes
      together with the whitespace before it. */
  lemma StripCitationRemovesTrailing(pre: string, ws: string, body: string, ws2: string)
    requires AllSpace(ws) && AllSpace(ws2)
    requires NoCloseParen(body) && ContainsSection(body)
    ensures var s := pre + ws + "(" + body + ")" + ws2;
      |StripCitation(s)| <= |pre|
  {
    var s := pre + ws + "(" + body + ")" + ws2;
    var p, q, c := |pre|, |pre| + |ws|, |pre| + |ws| + 1 + |body|;
    assert s[p..q] == ws && s[q + 1..c] == body && s[c + 1..] == ws2;
    assert s[q] == '(' && s[c] == ')';
    assert CitationTail(s, p);
    StripCitationRemovesTail(s);
  }

  // ---------------------------------------------------------------------------
  // Step 7: .replace('\\n', ' ').replace('\\"', '"')

  /** A literal backslash followed by `e`. */
  predicate HasEscape(t: string, e: char) {
    exists i :: 0 <= i < |t| - 1 && t[i] == '\\' && t[i + 1] == e
  }

  /** `str.replace` of the two characters backslash and `e` by the one
      character `sub`: the scan goes left to right and replaces
      non-overlapping occurrences. */
  function ReplaceEscape(s: string, e: char, sub: char): (r: string)
    ensures |r| <= |s|
    ensures r != [] ==> s != [] && (r[0] == s[0] || r[0] == sub)
  {
    if s == [] then []
    else if |s| >= 2 && s[0] == '\\' && s[1] == e then [sub] + ReplaceEscape(s[2..], e, sub)
    else [s[0]] + ReplaceEscape(s[1..], e, sub)
  }

  /** No occurrence is left behind. */
  lemma {:induction false} ReplaceEscapeRemovesAll(s: string, e: char, sub: char)
    requires sub != '\\' && sub != e
    ensures !HasEscape(ReplaceEscape(s, e, sub), e)
  {
    if s != [] {
      var k := if |s| >= 2 && s[0] == '\\' && s[1] == e then 2 else 1;
      ReplaceEscapeRemovesAll(s[k..], e, sub);
      var tail := ReplaceEscape(s[k..], e, sub);
      var head := if k == 2 then sub else s[0];
      var r := [head] + tail;
      assert ReplaceEscape(s, e, sub) == r;
      forall i | 0 <= i < |r| - 1
        ensures !(r[i] == '\\' && r[i + 1] == e)
      {
        if i == 0 {
          assert r[1] == tail[0];
          assert head == '\\' ==> k == 1 && s[1..][0] == s[1] && s[1] != e;
        } else {
          assert r[i] == tail[i - 1] && r[i + 1] == tail[i];
        }
      }
    }
  }

  /** Replacing one escape by a character other than a backslash or `f`
      introduces no backslash-`f`. */
  lemma {:induction false} ReplaceEscapeKeepsNoEscape(s: string, e: char, sub: char, f: char)
    requires sub != '\\' && sub != f && !HasEscape(s, f)
    ensures !HasEscape(ReplaceEscape(s, e, sub), f)
  {
    if s != [] {
      var k := if |s| >= 2 && s[0] == '\\' && s[1] == e then 2 else 1;
      var rest := s[k..];
      forall i | 0 <= i < |rest| - 1
        ensures !(rest[i] == '\\' && rest[i + 1] == f)
      {
        assert rest[i] == s[i + k] && rest[i + 1] == s[i + k + 1];
      }
      ReplaceEscapeKeepsNoEscape(rest, e, sub, f);
      var tail := ReplaceEscape(rest, e, sub);
      var head := if k == 2 then sub else s[0];
      var r := [head] + tail;
      assert ReplaceEscape(s, e, sub) == r;
      forall i | 0 <= i < |r| - 1
        ensures !(r[i] == '\\' && r[i + 1] == f)
      {
        if i == 0 {
          assert r[1] == tail[0];
          assert head == '\\' ==> k == 1 && rest[0] == s[1] && s[1] != f;
        } else {
          assert r[i] == tail[i - 1] && r[i + 1] == tail[i];
        }
      }
    }
  }

  /** A text without the escape comes back unchanged. */
  lemma {:induction false} ReplaceEscapeUnchanged(s: string, e: char, sub: char)
    requires !HasEscape(s, e)
    ensures ReplaceEscape(s, e, sub) == s
  {
    if s != [] {
      assert !HasEscape(s[1..], e) by {
        forall i | 0 <= i < |s| - 2 ensures !(s[1..][i] == '\\' && s[1..][i + 1] == e) {
          assert s[1..][i] == s[i + 1] && s[1..][i + 1] == s[i + 2];
        }
      }
      ReplaceEscapeUnchanged(s[1..], e, sub);
      assert [s[0]] + s[1..] == s;
    }
  }

  /** Every escape of the input, scanned left to right, becomes `sub`, and
      the texts on either side are rewritten on their own. */
  lemma ReplaceEscapePair(a: string, b: string, e: char, sub: char)
    requires e != '\\'
    ensures ReplaceEscape(a + ['\\', e] + b, e, sub) == ReplaceEscape(a, e, sub) + [sub] + ReplaceEscape(b, e, sub)
  {
    var t := ['\\', e] + b;
    ReplaceEscapeAppend(a, t, e, sub);
    assert t[2..] == b;
    assert ReplaceEscape(t, e, sub) == [sub] + ReplaceEscape(b, e, sub);
    assert a + ['\\', e] + b == a + t;
  }

  /** Two texts are rewritten on their own unless an escape straddles the
      join. */
  lemma {:induction false} ReplaceEscapeAppend(a: string, t: string, e: char, sub: char)
    requires a == [] || t == [] || !(a[|a| - 1] == '\\' && t[0] == e)
    ensures ReplaceEscape(a + t, e, sub) == ReplaceEscape(a, e, sub) + ReplaceEscape(t, e, sub)
  {
    if a == [] {
      assert a + t == t;
    } else if |a| >= 2 && a[0] == '\\' && a[1] == e {
      DropFront(a, 2);
      ReplaceEscapeAppend(a[2..], t, e, sub);
      ReplaceEscapeConsPair(a[2..], t, e, sub);
    } else {
      DropFront(a, 1);
      ReplaceEscapeAppend(a[1..], t, e, sub);
      ReplaceEscapeConsChar(a[0], a[1..], t, e, sub);
    }
  }

  /** Dropping a front part keeps the last character and the whole. */
  lemma DropFront(a: string, k: nat)
    requires 0 < k <= |a|
    ensures a[k..] == [] || a[k..][|a| - k - 1] == a[|a| - 1]
    ensures a[..k] + a[k..] == a
    ensures k == 1 ==> a[..k] == [a[0]]
    ensures k == 2 ==> a[..k] == [a[0], a[1]]
  {
  }

  lemma ReplaceEscapeConsPair(rest: string, t: string, e: char, sub: char)
    requires ReplaceEscape(rest + t, e, sub) == ReplaceEscape(rest, e, sub) + ReplaceEscape(t, e, sub)
    ensures ReplaceEscape(['\\', e] + rest + t, e, sub) == ReplaceEscape(['\\', e] + rest, e, sub) + ReplaceEscape(t, e, sub)
  {
    var s, a := ['\\', e] + rest + t, ['\\', e] + rest;
    assert s[2..] == rest + t && a[2..] == rest;
    assert s[0] == '\\' && s[1] == e && a[0] == '\\' && a[1] == e;
    assert ReplaceEscape(s, e, sub) == [sub] + ReplaceEscape(rest + t, e, sub);
    assert ReplaceEscape(a, e, sub) == [sub] + ReplaceEscape(rest, e, sub);
    PrependAppend([sub], ReplaceEscape(rest, e, sub), ReplaceEscape(t, e, sub));
  }

  lemma ReplaceEscapeConsChar(c: char, rest: string, t: string, e: char, sub: char)
    requires rest != [] ==> !(c == '\\' && rest[0] == e)
    requires rest == [] && t != [] ==> !(c == '\\' && t[0] == e)
    requires ReplaceEscape(rest + t, e, sub) == ReplaceEscape(rest, e, sub) + ReplaceEscape(t, e, sub)
    ensures ReplaceEscape([c] + rest + t, e, sub) == ReplaceEscape([c] + rest, e, sub) + ReplaceEscape(t, e, sub)
  {
    var s, a := [c] + rest + t, [c] + rest;
    assert s[1..] == rest + t && a[1..] == rest;
    assert !(|s| >= 2 && s[0] == '\\' && s[1] == e) by {
      if rest != [] {
        assert s[0] == c && s[1] == rest[0];
      } else if t != [] {
        assert s[0] == c && s[1] == t[0];
      }
    }
    assert !(|a| >= 2 && a[0] == '\\' && a[1] == e) by {
      if rest != [] {
        assert a[0] == c && a[1] == rest[0];
      }
    }
    assert ReplaceEscape(s, e, sub) == [c] + ReplaceEscape(rest + t, e, sub);
    assert ReplaceEscape(a, e, sub) == [c] + ReplaceEscape(rest, e, sub);
    PrependAppend([c], ReplaceEscape(rest, e, sub), ReplaceEscape(t, e, sub));
  }

  lemma PrependAppend(h: string, x: string, y: string)
    ensures h + (x + y) == h + x + y
  {
  }

  lemma AppendAssociative(x: string, y: string, z: string)
    ensures x + y + z == x + (y + z)
  {
  }

  // ---------------------------------------------------------------------------
  // The whole pipeline

  /** Cutting both ends off a text keeps it free of escaped newlines. */
  lemma SliceKeepsNoEscapedNewline(t: string, i: nat, j: nat)
    requires i <= j <= |t| && !HasEscape(t, 'n')
    ensures !HasEscape(t[i..j], 'n')
  {
  }

  /** Line 66: both replacements, in order; no escaped newline is left. */
  function Unescape(s: string): (r: string)
    ensures |r| <= |s| && !HasEscape(r, 'n')
  {
    var replaced := ReplaceEscape(s, 'n', ' ');
    ReplaceEscapeRemovesAll(s, 'n', ' ');
    ReplaceEscapeKeepsNoEscape(replaced, '"', '"', 'n');
    ReplaceEscape(replaced, '"', '"')
  }

  /** Lines 48-63: the first six rewrites, in order. */
  function Normalize(s: string): (r: string)
    ensures |r| <= |s|
  {
    StripCitation(StripEdgeQuotes(CollapseSpaces(JoinLines(CollapseBlankLines(Strip(s))))))
  }

  /** `_clean_response` on a string: an empty text is returned as it is;
      otherwise the seven rewrites run in order and the result is stripped. */
  function Clean(s: string): (r: string)
    ensures s == [] ==> r == []
    ensures |r| <= |s|
    ensures r != [] ==> !IsSpace(r[0]) && !IsSpace(r[|r| - 1])
    ensures !HasEscape(r, 'n')
  {
    if s == [] then s
    else
      var unescaped := Unescape(Normalize(s));
      var r := Strip(unescaped);
      SliceKeepsNoEscapedNewline(unescaped, LeadingSpaces(unescaped), LeadingSpaces(unescaped) + |r|);
      r
  }

  /** `_clean_response` on a value that may be `None`: `None` and the empty
      string come back unchanged. */
  function CleanResponse(response: Option<string>): (r: Option<string>)
    ensures response.None? <==> r.None?
    ensures response == Some([]) ==> r == Some([])
    ensures r.Some? ==> |r.value| <= |response.value|
  {
    match response
    case None => None
    case Some(s) => Some(Clean(s))
  }

  /** Not idempotent: a literal backslash-n between single spaces leaves
      three spaces after the first pass, which the second pass collapses. */
  lemma CleanIsNotIdempotent(s: string)
    requires s == "a \\n b"
    ensures Clean(s) == "a   b"
    ensures Clean(Clean(s)) == "a b"
  {
    var once, twice := "a   b", "a b";
    CleanEscapedNewline(s, once);
    CleanThreeSpaces(once, twice);
  }

  lemma CleanEscapedNewline(s: string, once: string)
    requires s == "a \\n b" && once == "a   b"
    ensures Clean(s) == once
  {
    NormalizeUnchanged(s);
    UnescapeEscapedNewline(s, once);
    CleanOf(s, s, once);
  }

  lemma CleanThreeSpaces(once: string, twice: string)
    requires once == "a   b" && twice == "a b"
    ensures Clean(once) == twice
  {
    NormalizeCollapsesSpaces(once, twice);
    UnescapeUnchanged(twice);
    CleanOf(once, twice, twice);
  }

  /** `Clean` from the results of its two halves, when the second leaves no
      whitespace at either end. */
  lemma CleanOf(s: string, normalized: string, unescaped: string)
    requires s != [] && Normalize(s) == normalized && Unescape(normalized) == unescaped
    requires unescaped != [] && !IsSpace(unescaped[0]) && !IsSpace(unescaped[|unescaped| - 1])
    ensures Clean(s) == unescaped
  {
    StripUnchanged(unescaped);
  }

  /** A text with no whitespace or quote at either end, no newline, no
      double space and no '(' is left alone by the first six rewrites. */
  lemma NormalizeUnchanged(s: string)
    requires s != [] && !IsSpace(s[0]) && !IsSpace(s[|s| - 1])
    requires !IsQuote(s[0]) && !IsQuote(s[|s| - 1])
    requires '\n' !in s && '(' !in s && NoDoubleSpace(s)
    ensures Normalize(s) == s
  {
    assert Strip(s) == s by { StripUnchanged(s); }
    assert CollapseBlankLines(s) == s by { CollapseBlankLinesUnchanged(s); }
    assert JoinLines(s) == s by { JoinLinesUnchanged(s); }
    assert CollapseSpaces(s) == s by { CollapseSpacesUnchanged(s); }
    assert StripEdgeQuotes(s) == s by {
      assert s[|s| - 1] in s;
      StripEdgeQuotesUnchanged(s);
    }
    assert StripCitation(s) == s by { StripCitationUnchanged(s); }
  }

  lemma UnescapeEscapedNewline(s: string, r: string)
    requires s == "a \\n b" && r == "a   b"
    ensures Unescape(s) == r
  {
    var a, b := s[..2], s[4..];
    assert s == a + ['\\', 'n'] + b;
    ReplaceEscapePair(a, b, 'n', ' ');
    NoEscapeWithoutBackslash(a, 'n');
    ReplaceEscapeUnchanged(a, 'n', ' ');
    NoEscapeWithoutBackslash(b, 'n');
    ReplaceEscapeUnchanged(b, 'n', ' ');
    assert a + [' '] + b == r;
    NoEscapeWithoutBackslash(r, '"');
    ReplaceEscapeUnchanged(r, '"', '"');
  }

  lemma NormalizeCollapsesSpaces(t: string, u: string)
    requires t == "a   b" && u == "a b"
    ensures Normalize(t) == u
  {
    CollapseThreeSpaces(t, u);
    assert u[|u| - 1] == 'b';
    NormalizeOnlyCollapses(t, u);
  }

  lemma CollapseThreeSpaces(t: string, u: string)
    requires t == "a   b" && u == "a b"
    ensures CollapseSpaces(t) == u
  {
    var t1 := t[1..];
    var t2 := t1[1..];
    var t3 := t2[1..];
    assert CollapseSpaces(t) == [t[0]] + CollapseSpaces(t1);
    assert CollapseSpaces(t1) == CollapseSpaces(t2);
    assert CollapseSpaces(t2) == CollapseSpaces(t3);
    assert t3 == u[1..];
    CollapseSpacesUnchanged(t3);
    assert [t[0]] + u[1..] == u;
  }

  /** On a one-line text with no whitespace at either end, only the space
      collapse can change anything when its result has no quote at either
      end and no '('. */
  lemma NormalizeOnlyCollapses(s: string, c: string)
    requires s != [] && !IsSpace(s[0]) && !IsSpace(s[|s| - 1]) && '\n' !in s
    requires CollapseSpaces(s) == c && c != [] && !IsQuote(c[0]) && !IsQuote(c[|c| - 1])
    requires c[|c| - 1] != '\n' && '(' !in c
    ensures Normalize(s) == c
  {
    assert Strip(s) == s by { StripUnchanged(s); }
    assert CollapseBlankLines(s) == s by { CollapseBlankLinesUnchanged(s); }
    assert JoinLines(s) == s by { JoinLinesUnchanged(s); }
    assert StripEdgeQuotes(c) == c by { StripEdgeQuotesUnchanged(c); }
    assert StripCitation(c) == c by { StripCitationUnchanged(c); }
  }

  lemma UnescapeUnchanged(s: string)
    requires '\\' !in s
    ensures Unescape(s) == s
  {
    NoEscapeWithoutBackslash(s, 'n');
    ReplaceEscapeUnchanged(s, 'n', ' ');
    NoEscapeWithoutBackslash(s, '"');
    ReplaceEscapeUnchanged(s, '"', '"');
  }

  /** Each rewrite leaves alone a text that holds nothing it looks for. */
  lemma {:induction false} CollapseBlankLinesUnchanged(s: string)
    requires '\n' !in s
    ensures CollapseBlankLines(s) == s
  {
    if s != [] {
      assert s[0] != '\n' && '\n' !in s[1..];
      CollapseBlankLinesUnchanged(s[1..]);
    }
  }

  lemma JoinLinesUnchanged(s: string)
    requires '\n' !in s
    ensures JoinLines(s) == s
  {
    forall i | 0 <= i < |s| ensures !LoneNewlineAt(s, i) {
      assert s[i] in s;
    }
  }

  lemma {:induction false} CollapseSpacesUnchanged(s: string)
    requires NoDoubleSpace(s)
    ensures CollapseSpaces(s) == s
  {
    if s != [] {
      assert NoDoubleSpace(s[1..]) by {
        forall i | 0 <= i < |s[1..]| - 1 ensures !(s[1..][i] == ' ' && s[1..][i + 1] == ' ') {
          assert s[1..][i] == s[i + 1] && s[1..][i + 1] == s[i + 2];
        }
      }
      CollapseSpacesUnchanged(s[1..]);
    }
  }

  lemma StripEdgeQuotesUnchanged(s: string)
    requires s != [] && !IsQuote(s[0]) && !IsQuote(s[|s| - 1]) && s[|s| - 1] != '\n'
    ensures StripEdgeQuotes(s) == s
  {
    assert LeadingQuotes(s) == 0;
    assert s[0..] == s;
  }

  lemma StripCitationUnchanged(s: string)
    requires '(' !in s
    ensures StripCitation(s) == s
  {
    forall p | 0 <= p <= |s| ensures !CitationAt(s, p) {
      var q := p + LeadingSpaces(s[p..]);
      if q < |s| {
        assert s[q] in s;
      }
    }
  }

  lemma NoEscapeWithoutBackslash(s: string, e: char)
    requires '\\' !in s
    ensures !HasEscape(s, e)
  {
    forall i | 0 <= i < |s| - 1 ensures s[i] != '\\' {
      assert s[i] in s;
    }
  }

  /** A text with no whitespace at either end is left alone by `strip()`. */
  lemma StripUnchanged(s: string)
    requires s != [] && !IsSpace(s[0]) && !IsSpace(s[|s| - 1])
    ensures Strip(s) == s
  {
    assert StripStart(s) == s;
    assert StripEnd(s) == s;
  }
}
