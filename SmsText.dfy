/**
 * The text normalisation `/send-sms` applies to the message before handing
 * it to the provider: `sms.trim().replace(/\n\s*\n/g, '\n')`.
 *
 * The global replace scans the trimmed text from left to right. At a
 * position holding a line break the pattern takes the whole white-space run
 * after it with the greedy `\s*` and then backs off, one character at a
 * time, until the next character is a line break; the match therefore ends
 * at the LAST line break of that run. The match becomes a single line break
 * and the scan resumes after it; where the pattern does not match, one
 * character is kept and the scan moves on by one.
 */
module SmsText {
  import opened Wrappers
  import opened JsString

  /** The greatest `j < n` with `s[j] == '\n'`, found by trying `n - 1`,
      `n - 2`, ... in turn: the backtracking order of the greedy `\s*`. */
  function LastNewline(s: string, n: nat): (j: Option<nat>)
    requires n <= |s|
    ensures j.Some? ==> j.value < n && s[j.value] == '\n'
    ensures j.Some? ==> forall k :: j.value < k < n ==> s[k] != '\n'
    ensures j.None? ==> forall k :: 0 <= k < n ==> s[k] != '\n'
  {
    if n == 0 then None
    else if s[n - 1] == '\n' then Some(n - 1)
    else LastNewline(s, n - 1)
  }

  /** The white space at the start of `s` holds no line break. */
  predicate NewlineFreeLead(s: string) {
    forall k :: 0 <= k < LeadingSpace(s) ==> s[k] != '\n'
  }

  /** A count `m` that satisfies the contract of `LeadingSpace` is it. */
  lemma LeadingSpaceUnique(s: string, m: nat)
    requires m <= |s|
    requires forall k :: 0 <= k < m ==> IsSpace(s[k])
    requires m == |s| || !IsSpace(s[m])
    ensures LeadingSpace(s) == m
  {
  }

  /** The length of the match of `/\n\s*\n/` at the start of `s`, if the
      pattern matches there. */
  function BlankRunMatch(s: string): (m: Option<nat>)
    ensures m.Some? ==> 2 <= m.value <= |s| && s[0] == '\n' && s[m.value - 1] == '\n'
    ensures m.Some? ==> forall k :: 0 <= k < m.value ==> IsSpace(s[k])
    ensures m.Some? ==> NewlineFreeLead(s[m.value..])
    ensures m.None? && s != [] && s[0] == '\n' ==> NewlineFreeLead(s[1..])
  {
    if s == [] || s[0] != '\n' then None
    else
      var t := s[1..];
      var n := LeadingSpace(t);
      match LastNewline(t, n)
      case None => None
      case Some(j) =>
        var u := s[j + 2..];
        assert forall k :: 0 <= k < n - (j + 1) ==> u[k] == t[j + 1 + k];
        LeadingSpaceUnique(u, n - (j + 1));
        Some(j + 2)
  }

  /** `s.replace(/\n\s*\n/g, '\n')`. */
  function CollapseBlankLines(s: string): (r: string)
    decreases |s|
  {
    if s == [] then []
    else match BlankRunMatch(s)
      case Some(m) => "\n" + CollapseBlankLines(s[m..])
      case None => [s[0]] + CollapseBlankLines(s[1..])
  }

  /** The message text as `/send-sms` forwards it. */
  function Normalise(sms: string): string {
    CollapseBlankLines(Trim(sms))
  }

  /** No two line breaks of `s` are separated by white space only. */
  predicate NoBlankLines(s: string) {
    forall i, j :: 0 <= i < j < |s| && BreakAt(s, i) && BreakAt(s, j) ==>
      exists k :: i < k < j && !IsSpace(s[k])
  }

  /** `s` has a line break at `i`. */
  predicate BreakAt(s: string, i: int) {
    0 <= i < |s| && s[i] == '\n'
  }

  /** Where the pattern matches, the text has a blank line. */
  lemma MatchMeansBlankLine(s: string)
    requires BlankRunMatch(s).Some?
    ensures !NoBlankLines(s)
  {
    var m := BlankRunMatch(s).value;
    assert BreakAt(s, 0) && BreakAt(s, m - 1);
    assert forall k :: 0 < k < m - 1 ==> IsSpace(s[k]);
  }

  lemma NoBlankLinesTail(s: string)
    requires s != [] && NoBlankLines(s)
    ensures NoBlankLines(s[1..])
  {
    var t := s[1..];
    forall i, j | i < j && BreakAt(t, i) && BreakAt(t, j)
      ensures exists k :: i < k < j && !IsSpace(t[k])
    {
      assert BreakAt(s, i + 1) && BreakAt(s, j + 1);
      var k :| i + 1 < k < j + 1 && !IsSpace(s[k]);
      assert t[k - 1] == s[k];
    }
  }

  /** A line break in a text whose leading white space has none lies past
      the first visible character. */
  lemma BreakAfterLead(x: string, j: nat)
    requires NewlineFreeLead(x)
    requires j < |x| && x[j] == '\n'
    ensures LeadingSpace(x) < j && !IsSpace(x[LeadingSpace(x)])
  {
    var n := LeadingSpace(x);
    assert IsSpace(x[j]);
    assert n <= j;
    assert n != j;
  }

  /** A visible character between a line break put in front of `x` and a
      line break inside it. */
  lemma HeadBreakWitness(x: string, j: nat) returns (k: nat)
    requires NewlineFreeLead(x)
    requires 0 < j <= |x| && x[j - 1] == '\n'
    ensures 0 < k < j && !IsSpace(x[k - 1])
  {
    BreakAfterLead(x, j - 1);
    k := LeadingSpace(x) + 1;
  }

  /** A visible character between two line breaks of `x`. */
  lemma TailBreakWitness(x: string, i: nat, j: nat) returns (k: nat)
    requires NoBlankLines(x)
    requires 0 < i < j <= |x| && x[i - 1] == '\n' && x[j - 1] == '\n'
    ensures i < k < j && !IsSpace(x[k - 1])
  {
    assert BreakAt(x, i - 1) && BreakAt(x, j - 1);
    var k0 :| i - 1 < k0 < j - 1 && !IsSpace(x[k0]);
    k := k0 + 1;
  }

  /** Putting a character in front keeps the text free of blank lines when
      the character is not a line break, or when the text's leading white
      space holds none. */
  lemma ConsNoBlankLines(c: char, x: string)
    requires NoBlankLines(x)
    requires c != '\n' || NewlineFreeLead(x)
    ensures NoBlankLines([c] + x)
  {
    var y := [c] + x;
    forall i, j | i < j && BreakAt(y, i) && BreakAt(y, j)
      ensures exists k :: i < k < j && !IsSpace(y[k])
    {
      assert y[j] == x[j - 1];
      var k;
      if i == 0 {
        k := HeadBreakWitness(x, j);
      } else {
        assert y[i] == x[i - 1];
        k := TailBreakWitness(x, i, j);
      }
      assert y[k] == x[k - 1];
    }
  }

  /** Putting a white-space character other than a line break in front keeps
      the leading white space free of line breaks. */
  lemma ConsNewlineFreeLead(c: char, x: string)
    requires NewlineFreeLead(x)
    requires c != '\n'
    ensures NewlineFreeLead([c] + x)
  {
    var y := [c] + x;
    if IsSpace(c) {
      assert y[1..] == x;
      assert LeadingSpace(y) == 1 + LeadingSpace(x);
      assert forall k :: 1 <= k < |y| ==> y[k] == x[k - 1];
    }
  }

  /** The replace leaves no blank line behind, and it adds no line break to
      leading white space that had none. */
  lemma {:induction false} CollapseLeavesNoBlankLines(s: string)
    ensures NoBlankLines(CollapseBlankLines(s))
    ensures NewlineFreeLead(s) ==> NewlineFreeLead(CollapseBlankLines(s))
    decreases |s|
  {
    if s != [] {
      match BlankRunMatch(s)
      case Some(m) =>
        CollapseLeavesNoBlankLines(s[m..]);
        ConsNoBlankLines('\n', CollapseBlankLines(s[m..]));
      case None =>
        var rest := CollapseBlankLines(s[1..]);
        if IsSpace(s[0]) {
          assert LeadingSpace(s) == 1 + LeadingSpace(s[1..]);
          assert forall k :: 0 <= k < LeadingSpace(s[1..]) ==> s[1..][k] == s[k + 1];
        }
        CollapseLeavesNoBlankLines(s[1..]);
        ConsNoBlankLines(s[0], rest);
        if NewlineFreeLead(s) && IsSpace(s[0]) {
          ConsNewlineFreeLead(s[0], rest);
        }
    }
  }

  /** Text without blank lines is left alone by the replace. */
  lemma {:induction false} CollapseFixesClean(s: string)
    requires NoBlankLines(s)
    ensures CollapseBlankLines(s) == s
    decreases |s|
  {
    if s != [] {
      if BlankRunMatch(s).Some? {
        MatchMeansBlankLine(s);
      }
      NoBlankLinesTail(s);
      CollapseFixesClean(s[1..]);
    }
  }

  /** A text that starts with a visible character keeps it in front. */
  lemma CollapseKeepsFirst(s: string)
    requires s != [] && !IsSpace(s[0])
    ensures CollapseBlankLines(s) != [] && CollapseBlankLines(s)[0] == s[0]
  {
  }

  /** A text that ends with a visible character keeps it at the end: matches
      consist of white space, so they never reach that character. */
  lemma {:induction false} CollapseKeepsLast(s: string)
    requires s != [] && !IsSpace(s[|s| - 1])
    ensures CollapseBlankLines(s) != []
    ensures CollapseBlankLines(s)[|CollapseBlankLines(s)| - 1] == s[|s| - 1]
    decreases |s|
  {
    match BlankRunMatch(s)
    case Some(m) =>
      assert m < |s|;
      CollapseKeepsLast(s[m..]);
    case None =>
      if |s| > 1 {
        CollapseKeepsLast(s[1..]);
      }
  }

  /** The replace only ever removes white space: the visible characters come
      out unchanged and in order. */
  lemma {:induction false} CollapseKeepsVisible(s: string)
    ensures Visible(CollapseBlankLines(s)) == Visible(s)
    decreases |s|
  {
    if s != [] {
      match BlankRunMatch(s)
      case Some(m) =>
        assert s == s[..m] + s[m..];
        VisibleConcat(s[..m], s[m..]);
        VisibleOfSpace(s[..m]);
        CollapseKeepsVisible(s[m..]);
        VisibleConcat("\n", CollapseBlankLines(s[m..]));
      case None =>
        VisibleConcat([s[0]], CollapseBlankLines(s[1..]));
        VisibleConcat([s[0]], s[1..]);
        assert s == [s[0]] + s[1..];
        CollapseKeepsVisible(s[1..]);
    }
  }

  /** The normalised text has no white-space margins and no blank lines. */
  lemma NormaliseShape(sms: string)
    ensures NoEdgeSpace(Normalise(sms))
    ensures NoBlankLines(Normalise(sms))
  {
    var t := Trim(sms);
    CollapseLeavesNoBlankLines(t);
    if t != [] {
      CollapseKeepsFirst(t);
      CollapseKeepsLast(t);
    }
  }

  /** Normalisation keeps every visible character, in order. */
  lemma NormaliseKeepsVisible(sms: string)
    ensures Visible(Normalise(sms)) == Visible(sms)
  {
    TrimKeepsVisible(sms);
    CollapseKeepsVisible(Trim(sms));
  }

  /** The texts normalisation leaves alone are exactly those without
      white-space margins or blank lines. */
  lemma NormaliseFixedPoints(sms: string)
    ensures Normalise(sms) == sms <==> NoEdgeSpace(sms) && NoBlankLines(sms)
  {
    if NoEdgeSpace(sms) && NoBlankLines(sms) {
      TrimOfTrimmed(sms);
      CollapseFixesClean(sms);
    }
    NormaliseShape(sms);
  }

  /** Normalising twice is normalising once. */
  lemma NormaliseIdempotent(sms: string)
    ensures Normalise(Normalise(sms)) == Normalise(sms)
  {
    NormaliseShape(sms);
    NormaliseFixedPoints(Normalise(sms));
  }

  /** Where the text does not start with a line break, the pattern does not
      match and the first character is kept. */
  lemma CollapseStep(s: string)
    requires s != [] && s[0] != '\n'
    ensures CollapseBlankLines(s) == [s[0]] + CollapseBlankLines(s[1..])
  {
    assert BlankRunMatch(s) == None;
  }

  /** A prefix without line breaks passes through the replace unchanged. */
  lemma {:induction false} CollapseKeepsPlainPrefix(p: string, x: string)
    requires '\n' !in p
    ensures CollapseBlankLines(p + x) == p + CollapseBlankLines(x)
  {
    if p != [] {
      var s := p + x;
      assert s[0] == p[0];
      CollapseStep(s);
      assert s[1..] == p[1..] + x;
      CollapseKeepsPlainPrefix(p[1..], x);
      assert p == [p[0]] + p[1..];
    } else {
      assert p + x == x;
    }
  }

  // The steps of `NormaliseExample`, one lemma each so that the concrete
  // text is unfolded a step at a time.

  lemma ExampleTrim(s: string)
    requires s == "Hello\n\n\nWorld"
    ensures Trim(s) == s
  {
    TrimOfTrimmed(s);
  }

  lemma ExamplePrefix(s: string)
    requires s == "Hello\n\n\nWorld"
    ensures CollapseBlankLines(s) == "Hello" + CollapseBlankLines("\n\n\nWorld")
  {
    assert s == "Hello" + "\n\n\nWorld";
    CollapseKeepsPlainPrefix("Hello", "\n\n\nWorld");
  }

  /** The pattern matches the three line breaks; the word after them is left
      alone. */
  lemma ExampleBlankRun(rest: string)
    requires rest == "\n\n\nWorld"
    ensures CollapseBlankLines(rest) == "\nWorld"
  {
    var t := rest[1..];
    assert t == "\n\nWorld";
    LeadingSpaceUnique(t, 2);
    assert LastNewline(t, 2) == Some(1);
    assert BlankRunMatch(rest) == Some(3);
    assert rest[3..] == "World";
    CollapseFixesClean("World");
  }

  lemma ExampleJoin(a: string, b: string)
    requires a == "Hello" && b == "\nWorld"
    ensures a + b == "Hello\nWorld"
  {
    assert |a + b| == 11;
    assert forall i :: 0 <= i < 5 ==> (a + b)[i] == a[i];
  }

  /** A run of blank lines between two words becomes one line break. */
  lemma NormaliseExample(s: string)
    requires s == "Hello\n\n\nWorld"
    ensures Normalise(s) == "Hello\nWorld"
  {
    ExampleTrim(s);
    ExamplePrefix(s);
    ExampleBlankRun("\n\n\nWorld");
    ExampleJoin("Hello", "\nWorld");
  }
}
