/**
 * The pure part of the generator's run: the names the scanner collects from
 * the preprocessor's output are the data the template is executed with.
 * Running the preprocessor, writing the file and reformatting it are not
 * part of this model.
 */
module MkPdhDefs {
  import opened Wrappers
  import opened DefineScanner
  import opened DefsTemplate

  /** A name the scanner captures is one the template can declare and read back. */
  lemma PdhNameIsIdent(n: string)
    requires IsPdhName(n)
    ensures IsIdent(n)
  {
  }

  /**
   * `getErrorDefines` followed by the rendering in `writeOutput`: the
   * generated file's lines, before reformatting.
   */
  method Generate(lines: seq<string>) returns (out: seq<string>)
    ensures ReadBack(out) == Some((Scan(lines), Scan(lines)))
    ensures out == RenderLines(TemplateParams(Scan(lines)))
  {
    var errors := GetErrorDefines(lines);
    var t := TemplateParams(errors);
    out := RenderLines(t);
    forall k | 0 <= k < |errors| ensures IsIdent(errors[k]) {
      PdhNameIsIdent(errors[k]);
    }
    ReadBackRender(t);
  }

  /**
   * Every matching line of the preprocessor's output becomes one constant
   * declaration and one map key of the generated file, in line order.
   */
  lemma GeneratedDeclaresEveryMatch(lines: seq<string>)
    ensures var names := Scan(lines);
      && ReadBack(RenderLines(TemplateParams(names))) == Some((names, names))
      && |names| == |MatchSet(lines)|
  {
    var names := Scan(lines);
    forall k | 0 <= k < |names| ensures IsIdent(names[k]) {
      PdhNameIsIdent(names[k]);
    }
    ReadBackRender(TemplateParams(names));
    ScanLength(lines);
  }

  /** Lines the pattern skips: nothing after the prefix, a space after it, another name, text before the directive. */
  lemma SkippedLines()
    ensures MatchDefine("#define PDH_") == None
    ensures MatchDefine("#define PDH_ 1") == None
    ensures MatchDefine("#define UNRELATED 2") == None
    ensures MatchDefine(" #define PDH_X") == None
  {
    BarePrefixSkipped("");
    assert Directive + Prefix + "" == "#define PDH_";
    BarePrefixSkipped(" 1");
    assert Directive + Prefix + " 1" == "#define PDH_ 1";
    var other := "#define UNRELATED 2";
    assert other[8] == 'U' && (Directive + Prefix)[8] == 'P';
    var indented := " #define PDH_X";
    assert indented[0] == ' ' && (Directive + Prefix)[0] == '#';
  }

  /** The first example line yields its name. */
  lemma ValidDataLine()
    ensures MatchDefine("#define PDH_CSTATUS_VALID_DATA 0") == Some("PDH_CSTATUS_VALID_DATA")
  {
    var n := "PDH_CSTATUS_VALID_DATA";
    assert IsPdhName(n);
    assert "#define PDH_CSTATUS_VALID_DATA 0" == Directive + n + " 0";
    CaptureOf(n, " 0");
  }

  /** The second example line yields its name. */
  lemma NewDataLine()
    ensures MatchDefine("#define PDH_CSTATUS_NEW_DATA 1") == Some("PDH_CSTATUS_NEW_DATA")
  {
    var n := "PDH_CSTATUS_NEW_DATA";
    assert IsPdhName(n);
    assert "#define PDH_CSTATUS_NEW_DATA 1" == Directive + n + " 1";
    CaptureOf(n, " 1");
  }

  /** The two error definitions are kept, in order; the unrelated definition is dropped. */
  lemma ScanExample()
    ensures Scan(["#define PDH_CSTATUS_VALID_DATA 0", "#define PDH_CSTATUS_NEW_DATA 1", "#define UNRELATED 2"])
            == ["PDH_CSTATUS_VALID_DATA", "PDH_CSTATUS_NEW_DATA"]
  {
    var l0, l1, l2 := "#define PDH_CSTATUS_VALID_DATA 0", "#define PDH_CSTATUS_NEW_DATA 1", "#define UNRELATED 2";
    ValidDataLine();
    NewDataLine();
    SkippedLines();
    ScanAppend([l0], [l1]);
    ScanAppend([l0, l1], [l2]);
    assert [l0] + [l1] == [l0, l1] && [l0, l1] + [l2] == [l0, l1, l2];
    assert [l0][..0] == [] && Scan([l0]) == Contribution(l0);
    assert [l1][..0] == [] && Scan([l1]) == Contribution(l1);
    assert [l2][..0] == [] && Scan([l2]) == Contribution(l2);
  }

  /** Rendering two names gives two constant lines and two map lines, in order, between the fixed lines. */
  lemma RenderExample()
    ensures var a, b := "PDH_CSTATUS_VALID_DATA", "PDH_CSTATUS_NEW_DATA";
      RenderLines(TemplateParams([a, b]))
      == HeaderLines + [ConstDecl(a), ConstDecl(b)] + MiddleLines + [MapEntry(a), MapEntry(b)] + TrailerLines
  {
    var names := ["PDH_CSTATUS_VALID_DATA", "PDH_CSTATUS_NEW_DATA"];
    assert names[1..][1..] == [];
  }
}
