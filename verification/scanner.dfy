/**
 * The definition scanner of the generator: the loop of `getErrorDefines`
 * over the preprocessor's output lines and the pattern
 * `^#define (PDH_[\w_]+)` it matches each line against.
 */
module DefineScanner {
  import opened Wrappers
  import opened Words

  /** The macro-definition marker the pattern requires at the start of a line, with its one space. */
  const Directive: string := "#define "
  /** The literal prefix every captured name starts with. */
  const Prefix: string := "PDH_"

  /** A name the pattern can capture: the prefix, then at least one more word character. */
  predicate IsPdhName(n: string) {
    |n| > |Prefix| && n[..|Prefix|] == Prefix && IsWord(n)
  }

  /**
   * The pattern's meaning, stated declaratively: `line` starts with the
   * directive followed by `n`, `n` is a PDH name, and the greedy `+` has
   * taken every word character, so `n` is not followed by another one.
   */
  predicate IsCapture(line: string, n: string)
    ensures IsCapture(line, n) ==> |Directive + n| <= |line| && line[..|Directive + n|] == Directive + n
  {
    |Directive| + |n| <= |line|
    && line[..|Directive|] == Directive
    && line[|Directive|..|Directive| + |n|] == n
    && IsPdhName(n)
    && (|Directive| + |n| == |line| || !IsWordChar(line[|Directive| + |n|]))
  }

  /** The group the pattern captures from `line`, or None when the line does not match. */
  function MatchDefine(line: string): (m: Option<string>)
    ensures m.Some? ==> IsCapture(line, m.value)
  {
    var lead := Directive + Prefix;
    if |line| > |lead| && line[..|lead|] == lead && IsWordChar(line[|lead|]) then
      var run := WordPrefix(line[|lead|..]);
      assert run != [];
      var n := Prefix + run;
      assert n[..|Prefix|] == Prefix;
      assert line[|Directive|..|Directive| + |n|] == line[|Directive|..|lead|] + line[|lead|..|lead| + |run|];
      Some(n)
    else
      None
  }

  /** The pattern captures at most one name from a line, and MatchDefine finds exactly that one. */
  lemma MatchDefineExact(line: string, n: string)
    ensures MatchDefine(line) == Some(n) <==> IsCapture(line, n)
  {
  }

  /** A line made of the directive, a PDH name and text that does not continue the name yields that name. */
  lemma CaptureOf(n: string, rest: string)
    requires IsPdhName(n)
    requires rest == [] || !IsWordChar(rest[0])
    ensures MatchDefine(Directive + n + rest) == Some(n)
  {
    var line := Directive + n + rest;
    assert line[..|Directive|] == Directive;
    assert line[|Directive|..|Directive| + |n|] == n;
    assert IsCapture(line, n);
    MatchDefineExact(line, n);
  }

  /** The directive and the bare prefix, followed by nothing or by a non-word character, yield nothing. */
  lemma BarePrefixSkipped(rest: string)
    requires rest == [] || !IsWordChar(rest[0])
    ensures MatchDefine(Directive + Prefix + rest) == None
  {
  }

  /**
   * `FindStringSubmatch` of the pattern: the whole match followed by the
   * captured group, or nothing at all when the line does not match.
   */
  function FindSubmatch(line: string): (m: seq<string>)
    ensures |m| == 0 || |m| == 2
    ensures |m| > 1 <==> MatchDefine(line).Some?
    ensures |m| > 1 ==>
              m[1] == MatchDefine(line).value && m[0] == Directive + m[1]
              && |m[0]| <= |line| && line[..|m[0]|] == m[0]
  {
    match MatchDefine(line)
    case Some(n) =>
      assert line[..|Directive| + |n|] == line[..|Directive|] + line[|Directive|..|Directive| + |n|];
      [Directive + n, n]
    case None => []
  }

  /** What one line adds to the result: its captured name, or nothing. */
  function Contribution(line: string): (c: seq<string>)
    ensures |c| <= 1
    ensures |c| == 1 <==> Matches(line)
    ensures |c| == 1 ==> IsCapture(line, c[0])
  {
    match MatchDefine(line)
    case Some(n) => [n]
    case None => []
  }

  /**
   * The names the scanner collects from `lines`, one per matching line,
   * in line order, duplicates kept.
   */
  function Scan(lines: seq<string>): (names: seq<string>)
    ensures |names| <= |lines|
    ensures forall k :: 0 <= k < |names| ==> IsPdhName(names[k])
  {
    if lines == [] then []
    else Scan(lines[..|lines| - 1]) + Contribution(lines[|lines| - 1])
  }

  /** The loop of `getErrorDefines`: scan every line, append each captured group. */
  method GetErrorDefines(lines: seq<string>) returns (errors: seq<string>)
    ensures errors == Scan(lines)
  {
    errors := [];
    var i := 0;
    while i < |lines|
      invariant 0 <= i <= |lines|
      invariant errors == Scan(lines[..i])
    {
      var line := lines[i];
      var matches := FindSubmatch(line);
      if |matches| > 1 {
        errors := errors + [matches[1]];
      }
      assert lines[..i + 1][..i] == lines[..i];
      i := i + 1;
    }
    assert lines[..i] == lines;
  }

  /** Whether `line` contributes a name. */
  predicate Matches(line: string) {
    MatchDefine(line).Some?
  }

  /** The indices of the lines that match, in increasing order. */
  function MatchingLines(lines: seq<string>): (idx: seq<nat>)
    ensures forall k :: 0 <= k < |idx| ==> idx[k] < |lines|
  {
    if lines == [] then []
    else
      var last := |lines| - 1;
      MatchingLines(lines[..last]) + (if Matches(lines[last]) then [last] else [])
  }

  /**
   * The indices are exactly those of the matching lines: each one names a
   * matching line, they increase, and no matching line is missed.
   */
  lemma {:induction false} MatchingLinesExact(lines: seq<string>)
    ensures forall k :: 0 <= k < |MatchingLines(lines)| ==> Matches(lines[MatchingLines(lines)[k]])
    ensures forall k, l :: 0 <= k < l < |MatchingLines(lines)| ==> MatchingLines(lines)[k] < MatchingLines(lines)[l]
    ensures forall i :: 0 <= i < |lines| && Matches(lines[i]) ==> i in MatchingLines(lines)
  {
    if lines != [] {
      var last := |lines| - 1;
      var init := lines[..last];
      MatchingLinesExact(init);
      var idx0 := MatchingLines(init);
      var idx := MatchingLines(lines);
      assert idx == idx0 + (if Matches(lines[last]) then [last] else []);
      forall k | 0 <= k < |idx| ensures Matches(lines[idx[k]]) {
        if k < |idx0| {
          assert idx[k] == idx0[k] && lines[idx0[k]] == init[idx0[k]];
        }
      }
      forall i | 0 <= i < |lines| && Matches(lines[i]) ensures i in idx {
        if i < last {
          assert lines[i] == init[i];
          assert i in idx0;
        }
      }
    }
  }

  /**
   * The scan result is the list of captures of the matching lines, taken
   * in line order: entry k is what the k-th matching line captures.
   */
  lemma {:induction false} ScanIsMatchesInOrder(lines: seq<string>)
    ensures |Scan(lines)| == |MatchingLines(lines)|
    ensures forall k :: 0 <= k < |Scan(lines)| ==>
      MatchDefine(lines[MatchingLines(lines)[k]]) == Some(Scan(lines)[k])
  {
    if lines != [] {
      var init := lines[..|lines| - 1];
      var last := |lines| - 1;
      ScanIsMatchesInOrder(init);
      var names, idx := Scan(lines), MatchingLines(lines);
      var names0, idx0 := Scan(init), MatchingLines(init);
      assert names == names0 + Contribution(lines[last]);
      assert idx == idx0 + (if Matches(lines[last]) then [last] else []);
      forall k | 0 <= k < |names|
        ensures MatchDefine(lines[idx[k]]) == Some(names[k])
      {
        if k < |names0| {
          assert idx[k] == idx0[k] && lines[idx0[k]] == init[idx0[k]];
        }
      }
    }
  }

  /** The indices of the matching lines, as a set. */
  function MatchSet(lines: seq<string>): set<nat> {
    set i: nat | i < |lines| && Matches(lines[i])
  }

  /** The result has exactly as many entries as there are matching lines. */
  lemma {:induction false} ScanLength(lines: seq<string>)
    ensures |Scan(lines)| == |MatchSet(lines)|
  {
    if lines != [] {
      var init := lines[..|lines| - 1];
      var line := lines[|lines| - 1];
      assert init + [line] == lines;
      ScanLength(init);
      ScanSnocLength(init, line);
      MatchSetSnoc(init, line);
    }
  }

  lemma ScanSnocLength(init: seq<string>, line: string)
    ensures |Scan(init + [line])| == |Scan(init)| + if Matches(line) then 1 else 0
  {
  }

  lemma MatchSetSnoc(init: seq<string>, line: string)
    ensures |MatchSet(init + [line])| == |MatchSet(init)| + if Matches(line) then 1 else 0
  {
    var lines := init + [line];
    forall i: nat | i < |init| ensures lines[i] == init[i] { }
    assert MatchSet(lines) == MatchSet(init) + (if Matches(line) then {|init|} else {});
    assert |init| !in MatchSet(init);
  }

  /** Scanning distributes over concatenation of the input. */
  lemma {:induction false} ScanAppend(a: seq<string>, b: seq<string>)
    ensures Scan(a + b) == Scan(a) + Scan(b)
    decreases |b|
  {
    if b == [] {
      assert a + b == a;
    } else {
      var b' := b[..|b| - 1];
      assert (a + b)[..|a + b| - 1] == a + b';
      ScanAppend(a, b');
    }
  }

  /** The result is empty exactly when no line matches; empty input gives an empty result. */
  lemma {:induction false} ScanEmpty(lines: seq<string>)
    ensures Scan(lines) == [] <==> forall i :: 0 <= i < |lines| ==> !Matches(lines[i])
  {
    ScanIsMatchesInOrder(lines);
    MatchingLinesExact(lines);
    var idx := MatchingLines(lines);
    if Scan(lines) != [] {
      assert Matches(lines[idx[0]]);
    }
  }
}
