/**
 * The template renderer of the generator: `fileTemplate` executed over
 * `TemplateParams`. The rendered text is modelled as the list of its lines:
 * the text is each line preceded by a newline. With the `{{-` trimming of
 * the template, each range iteration contributes exactly one line, and the
 * fixed text around the two ranges is the lines spelled out below, as
 * rendered and before any reformatting.
 */
module DefsTemplate {
  import opened Wrappers
  import opened Words

  /** The data the template is executed with: the list of error-code names. */
  datatype TemplateParams = TemplateParams(Errors: seq<string>)

  /** The lines before the first range: generated-file header, cgo preamble, the error type, and `const (`. */
  const HeaderLines: seq<string> := [
      "// go run mkpdh_defs.go",
      "// MACHINE GENERATED BY THE ABOVE COMMAND; DO NOT EDIT",
      "",
      "// +build ignore",
      "",
      "package pdh",
      "",
      "/*",
      "#include <pdh.h>",
      "#include <pdhmsg.h>",
      "#cgo LDFLAGS: -lpdh",
      "*/",
      "import \"C\"",
      "",
      "type PdhErrno uintptr",
      "",
      "// PDH Error Codes",
      "const ("
    ]

  /** The lines between the two ranges: the end of the constant block and the head of the membership map. */
  const MiddleLines: seq<string> := [
      ")",
      "",
      "var pdhErrors = map[PdhErrno]struct{}{"
    ]

  /**
   * The lines after the second range: the end of the map and the
   * hand-written counter-format block; the text ends with a newline, so
   * its last line is empty.
   */
  const TrailerLines: seq<string> := [
      "}",
      "",
      "type PdhCounterFormat uint32",
      "",
      "// PDH Counter Formats",
      "const (",
      "\t// PdhFmtDouble returns data as a double-precision floating point real.",
      "\tPdhFmtDouble PdhCounterFormat = C.PDH_FMT_DOUBLE",
      "\t// PdhFmtLarge returns data as a 64-bit integer.",
      "\tPdhFmtLarge PdhCounterFormat = C.PDH_FMT_LARGE",
      "\t// PdhFmtLong returns data as a long integer.",
      "\tPdhFmtLong PdhCounterFormat = C.PDH_FMT_LONG",
      "",
      "\t// Use bitwise operators to combine these values with the counter type to scale the value.",
      "",
      "    // Do not apply the counter's default scaling factor.",
      "\tPdhFmtNoScale PdhCounterFormat = C.PDH_FMT_NOSCALE",
      "\t// Counter values greater than 100 (for example, counter values measuring",
      "\t// the processor load on multiprocessor computers) will not be reset to 100.",
      "\t// The default behavior is that counter values are capped at a value of 100.",
      "\tPdhFmtNoCap100 PdhCounterFormat = C.PDH_FMT_NOCAP100",
      "\t// Multiply the actual value by 1,000.",
      "\tPdhFmtMultiply1000 PdhCounterFormat = C.PDH_FMT_1000",
      ")",
      ""
    ]

  /** Between the constant's name and the cgo name it is bound to. */
  const DeclSep: string := " PdhErrno = C."
  /** After the key of a map entry. */
  const EntryEnd: string := ": struct{}{},"

  /**
   * The line one iteration of the first range emits: a tab, then the
   * constant `n`, bound to the native macro of the same name, which ends
   * the line.
   */
  function ConstDecl(n: string): (line: string)
    ensures |line| == 2 * |n| + |DeclSep| + 1
    ensures line[0] == '\t' && line[1..|n| + 1] == n && line[|line| - |n|..] == n
  {
    "\t" + n + DeclSep + n
  }

  /** The line one iteration of the second range emits: a tab, then `n` as a key of the membership map. */
  function MapEntry(n: string): (line: string)
    ensures |line| == |n| + |EntryEnd| + 1
    ensures line[0] == '\t' && line[1..|n| + 1] == n
  {
    "\t" + n + EntryEnd
  }

  /** The first range over the list: one line per name. */
  function ConstDecls(names: seq<string>): (lines: seq<string>)
    ensures |lines| == |names|
  {
    if names == [] then [] else [ConstDecl(names[0])] + ConstDecls(names[1..])
  }

  /** The second range over the list: one line per name. */
  function MapEntries(names: seq<string>): (lines: seq<string>)
    ensures |lines| == |names|
  {
    if names == [] then [] else [MapEntry(names[0])] + MapEntries(names[1..])
  }

  /** The k-th line of the first range declares the k-th name. */
  lemma {:induction false} ConstDeclsAt(names: seq<string>)
    ensures forall k :: 0 <= k < |names| ==> ConstDecls(names)[k] == ConstDecl(names[k])
  {
    if names != [] {
      ConstDeclsAt(names[1..]);
    }
  }

  /** The k-th line of the second range makes the k-th name a map key. */
  lemma {:induction false} MapEntriesAt(names: seq<string>)
    ensures forall k :: 0 <= k < |names| ==> MapEntries(names)[k] == MapEntry(names[k])
  {
    if names != [] {
      MapEntriesAt(names[1..]);
    }
  }

  /**
   * The lines of the rendered file: the fixed lines, and two more per
   * entry, one in each range (`RenderLayout` gives their positions).
   */
  function RenderLines(p: TemplateParams): (lines: seq<string>)
    ensures |lines| == |HeaderLines| + |MiddleLines| + |TrailerLines| + 2 * |p.Errors|
  {
    HeaderLines + ConstDecls(p.Errors) + MiddleLines + MapEntries(p.Errors) + TrailerLines
  }

  /** Text made of lines, each preceded by a newline. */
  function Unlines(lines: seq<string>): string {
    if lines == [] then "" else "\n" + lines[0] + Unlines(lines[1..])
  }

  /**
   * `tmpl.Execute` on `p`: the rendered file, which is the fixed header
   * text, the text of the constant lines, the fixed middle, the text of the
   * map lines and the fixed trailer, in that order.
   */
  function Execute(p: TemplateParams): (text: string)
    ensures text == Unlines(HeaderLines) + Unlines(ConstDecls(p.Errors)) + Unlines(MiddleLines)
                    + Unlines(MapEntries(p.Errors)) + Unlines(TrailerLines)
  {
    var c, k := ConstDecls(p.Errors), MapEntries(p.Errors);
    UnlinesAppend(HeaderLines + c + MiddleLines + k, TrailerLines);
    UnlinesAppend(HeaderLines + c + MiddleLines, k);
    UnlinesAppend(HeaderLines + c, MiddleLines);
    UnlinesAppend(HeaderLines, c);
    Unlines(RenderLines(p))
  }

  /**
   * The layout of the rendered file: the fixed header, then one constant
   * declaration per entry in list order, then the fixed middle, then one
   * map entry per entry in the same order, then the fixed trailer.
   */
  lemma RenderLayout(p: TemplateParams)
    ensures var lines, h, n, m := RenderLines(p), |HeaderLines|, |p.Errors|, |MiddleLines|;
      && lines[..h] == HeaderLines
      && (forall k :: 0 <= k < n ==> lines[h + k] == ConstDecl(p.Errors[k]))
      && lines[h + n..h + n + m] == MiddleLines
      && (forall k :: 0 <= k < n ==> lines[h + n + m + k] == MapEntry(p.Errors[k]))
      && lines[h + n + m + n..] == TrailerLines
  {
    ConstDeclsAt(p.Errors);
    MapEntriesAt(p.Errors);
  }

  /** An empty list renders the fixed text alone, with empty constant and map bodies. */
  lemma RenderEmpty()
    ensures RenderLines(TemplateParams([])) == HeaderLines + MiddleLines + TrailerLines
  {
  }

  /** Text of two runs of lines is the text of the first followed by the text of the second. */
  lemma {:induction false} UnlinesAppend(a: seq<string>, b: seq<string>)
    ensures Unlines(a + b) == Unlines(a) + Unlines(b)
  {
    if a == [] {
      assert a + b == b;
    } else {
      assert (a + b)[1..] == a[1..] + b;
      UnlinesAppend(a[1..], b);
    }
  }

  /** A name the generated file can declare: a non-empty run of word characters. */
  predicate IsIdent(n: string) {
    n != [] && IsWord(n)
  }

  /** The name a `NAME PdhErrno = C.NAME` line declares, if the line has that form. */
  function ReadConstDecl(line: string): (r: Option<string>)
    ensures r.Some? ==> IsIdent(r.value) && line == ConstDecl(r.value)
  {
    if line != [] && line[0] == '\t' then
      var n := WordPrefix(line[1..]);
      if n != [] && line == ConstDecl(n) then Some(n) else None
    else None
  }

  /** The key a `NAME: struct{}{},` line adds to the map, if the line has that form. */
  function ReadMapEntry(line: string): (r: Option<string>)
    ensures r.Some? ==> IsIdent(r.value) && line == MapEntry(r.value)
  {
    if line != [] && line[0] == '\t' then
      var n := WordPrefix(line[1..]);
      if n != [] && line == MapEntry(n) then Some(n) else None
    else None
  }

  lemma ReadConstDeclOf(n: string)
    requires IsIdent(n)
    ensures ReadConstDecl(ConstDecl(n)) == Some(n)
  {
    var line := ConstDecl(n);
    assert line[1..] == n + (DeclSep + n);
    WordPrefixOf(n, DeclSep + n);
  }

  lemma ReadMapEntryOf(n: string)
    requires IsIdent(n)
    ensures ReadMapEntry(MapEntry(n)) == Some(n)
  {
    var line := MapEntry(n);
    assert line[1..] == n + EntryEnd;
    WordPrefixOf(n, EntryEnd);
  }

  /** Reads a constant block back: the names of the leading declaration lines, and the lines after them. */
  function ParseConstDecls(lines: seq<string>): (r: (seq<string>, seq<string>))
    ensures lines == ConstDecls(r.0) + r.1
  {
    if lines != [] && ReadConstDecl(lines[0]).Some? then
      var tail := ParseConstDecls(lines[1..]);
      var names := [ReadConstDecl(lines[0]).value] + tail.0;
      assert names[1..] == tail.0;
      (names, tail.1)
    else ([], lines)
  }

  /** Reads a map block back: the keys of the leading entry lines, and the lines after them. */
  function ParseMapEntries(lines: seq<string>): (r: (seq<string>, seq<string>))
    ensures lines == MapEntries(r.0) + r.1
  {
    if lines != [] && ReadMapEntry(lines[0]).Some? then
      var tail := ParseMapEntries(lines[1..]);
      var names := [ReadMapEntry(lines[0]).value] + tail.0;
      assert names[1..] == tail.0;
      (names, tail.1)
    else ([], lines)
  }

  /**
   * Reads a generated file's lines back: the constants its first block
   * declares and the keys of its membership map, or None when the lines do
   * not have the shape the template gives.
   */
  function ReadBack(lines: seq<string>): Option<(seq<string>, seq<string>)> {
    var h := |HeaderLines|;
    if |lines| >= h && lines[..h] == HeaderLines then
      var (consts, rest) := ParseConstDecls(lines[h..]);
      var m := |MiddleLines|;
      if |rest| >= m && rest[..m] == MiddleLines then
        var (keys, rest2) := ParseMapEntries(rest[m..]);
        if rest2 == TrailerLines then Some((consts, keys))
        else None
      else None
    else None
  }

  /** Lines that do not continue a range: the first is not a tab-indented declaration. */
  predicate EndsBlock(rest: seq<string>) {
    rest != [] && (rest[0] == [] || rest[0][0] != '\t')
  }

  /** The block parser takes a declaration line of an identifier and goes on with the rest. */
  lemma ParseConstDeclsCons(n: string, lines: seq<string>)
    requires IsIdent(n)
    ensures ParseConstDecls([ConstDecl(n)] + lines)
            == ([n] + ParseConstDecls(lines).0, ParseConstDecls(lines).1)
  {
    ReadConstDeclOf(n);
    assert ([ConstDecl(n)] + lines)[1..] == lines;
  }

  /** The block parser takes a map entry line of an identifier and goes on with the rest. */
  lemma ParseMapEntriesCons(n: string, lines: seq<string>)
    requires IsIdent(n)
    ensures ParseMapEntries([MapEntry(n)] + lines)
            == ([n] + ParseMapEntries(lines).0, ParseMapEntries(lines).1)
  {
    ReadMapEntryOf(n);
    assert ([MapEntry(n)] + lines)[1..] == lines;
  }

  lemma {:induction false} ParseConstDeclsOf(names: seq<string>, rest: seq<string>)
    requires forall k :: 0 <= k < |names| ==> IsIdent(names[k])
    requires EndsBlock(rest)
    ensures ParseConstDecls(ConstDecls(names) + rest) == (names, rest)
  {
    if names == [] {
      assert ConstDecls(names) + rest == rest;
    } else {
      var n := names[0];
      assert ConstDecls(names) + rest == [ConstDecl(n)] + (ConstDecls(names[1..]) + rest);
      ParseConstDeclsCons(n, ConstDecls(names[1..]) + rest);
      ParseConstDeclsOf(names[1..], rest);
      assert names == [n] + names[1..];
    }
  }

  lemma {:induction false} ParseMapEntriesOf(names: seq<string>, rest: seq<string>)
    requires forall k :: 0 <= k < |names| ==> IsIdent(names[k])
    requires EndsBlock(rest)
    ensures ParseMapEntries(MapEntries(names) + rest) == (names, rest)
  {
    if names == [] {
      assert MapEntries(names) + rest == rest;
    } else {
      var n := names[0];
      assert MapEntries(names) + rest == [MapEntry(n)] + (MapEntries(names[1..]) + rest);
      ParseMapEntriesCons(n, MapEntries(names[1..]) + rest);
      ParseMapEntriesOf(names[1..], rest);
      assert names == [n] + names[1..];
    }
  }

  /**
   * Rendering a list of identifiers and reading the lines back gives the
   * list twice: one constant declaration per entry and one map key per
   * entry, both in list order, and nothing else between the fixed parts.
   */
  lemma ReadBackRender(p: TemplateParams)
    requires forall k :: 0 <= k < |p.Errors| ==> IsIdent(p.Errors[k])
    ensures ReadBack(RenderLines(p)) == Some((p.Errors, p.Errors))
  {
    var c, k := ConstDecls(p.Errors), MapEntries(p.Errors);
    var h := |HeaderLines|;
    var lines := RenderLines(p);
    var afterMiddle := k + TrailerLines;
    var rest := MiddleLines + afterMiddle;
    assert lines == HeaderLines + (c + rest);
    assert lines[..h] == HeaderLines;
    assert lines[h..] == c + rest;
    ParseConstDeclsOf(p.Errors, rest);
    assert rest[..|MiddleLines|] == MiddleLines;
    assert rest[|MiddleLines|..] == afterMiddle;
    ParseMapEntriesOf(p.Errors, TrailerLines);
  }

  /** Lines laid out as a prefix, a block, a middle part, a block and an end, put back together. */
  lemma Reassemble<T>(lines: seq<T>, h: seq<T>, c: seq<T>, rest: seq<T>, m: seq<T>, k: seq<T>, t: seq<T>)
    requires |h| <= |lines| && lines[..|h|] == h && lines[|h|..] == c + rest
    requires |m| <= |rest| && rest[..|m|] == m && rest[|m|..] == k + t
    ensures lines == h + c + m + k + t
  {
  }

  /** Whatever the reader accepts is the fixed text with the two blocks it reports in between. */
  lemma ReadBackSound(lines: seq<string>)
    requires ReadBack(lines).Some?
    ensures var (consts, keys) := ReadBack(lines).value;
      lines == HeaderLines + ConstDecls(consts) + MiddleLines + MapEntries(keys) + TrailerLines
  {
    var h := |HeaderLines|;
    var (consts, rest) := ParseConstDecls(lines[h..]);
    var m := |MiddleLines|;
    var (keys, rest2) := ParseMapEntries(rest[m..]);
    Reassemble(lines, HeaderLines, ConstDecls(consts), rest, MiddleLines, MapEntries(keys), TrailerLines);
  }

  /** The only line lists of the generated shape whose two blocks agree are renderings. */
  lemma ReadBackAgreeing(lines: seq<string>, names: seq<string>)
    requires ReadBack(lines) == Some((names, names))
    ensures lines == RenderLines(TemplateParams(names))
  {
    ReadBackSound(lines);
  }

  /** Different lists of names render to different files, whatever the names. */
  lemma RenderInjective(p: TemplateParams, q: TemplateParams)
    requires RenderLines(p) == RenderLines(q)
    ensures p == q
  {
    assert |p.Errors| == |q.Errors|;
    RenderLayout(p);
    RenderLayout(q);
    var lines, h := RenderLines(p), |HeaderLines|;
    forall k | 0 <= k < |p.Errors| ensures p.Errors[k] == q.Errors[k] {
      assert lines[h + k] == ConstDecl(p.Errors[k]) == ConstDecl(q.Errors[k]);
      ConstDeclInjective(p.Errors[k], q.Errors[k]);
    }
  }

  /** The declaration line determines the constant it declares. */
  lemma ConstDeclInjective(a: string, b: string)
    requires ConstDecl(a) == ConstDecl(b)
    ensures a == b
  {
    var line := ConstDecl(a);
    assert |a| == |b|;
    assert a == line[1..|a| + 1] == b;
  }
}
