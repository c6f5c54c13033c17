/** The entry point: scan the root file, default the version, build the
    `#version` + `#define` header from the caller's macros and emit one
    variant per enabled stage. */
module Variants {
  import opened Wrappers
  import opened Text
  import opened Pipeline
  import opened Directives
  import opened Scanner
  import opened ScanInvariants
  import opened ScanFacts
  import opened ScanMeta
  import opened Preprocessor

  /** A caller macro, `NAME` or `NAME=VALUE`. */
  datatype MacroDef = MacroDef(name: string, value: Option<string>)

  predicate WordChars(s: string)
  {
    forall i :: 0 <= i < |s| ==> IsWordChar(s[i])
  }

  /** `^(\w+)(?:=(\w*))?$`: a word, optionally followed by '=' and a
      possibly empty word. */
  function ParseMacro(m: string): (r: Option<MacroDef>)
    ensures r.Some? ==> IsWord(r.value.name) && (r.value.value.Some? ==> WordChars(r.value.value.value))
  {
    var w := WordPrefix(m);
    if w == [] then None
    else if |w| == |m| then Some(MacroDef(w, None))
    else if m[|w|] == '=' && WordChars(m[|w| + 1..]) then Some(MacroDef(w, Some(m[|w| + 1..])))
    else None
  }

  /** The caller's spelling of a macro. */
  function MacroText(d: MacroDef): (r: string)
  {
    match d.value
    case None => d.name
    case Some(v) => d.name + "=" + v
  }

  /** The macro parser accepts exactly the spellings of well-formed macros and
      reads each back as the macro it spells. */
  lemma MacroRoundTrip(m: string, d: MacroDef)
    requires IsWord(d.name) && (d.value.Some? ==> WordChars(d.value.value))
    ensures ParseMacro(m) == Some(d) <==> m == MacroText(d)
  {
    if m == MacroText(d) {
      var rest := if d.value.Some? then "=" + d.value.value else "";
      assert m == d.name + rest;
      WordPrefixOfWord(d.name, rest);
      if d.value.Some? {
        assert m[|d.name| + 1..] == d.value.value;
      }
    }
    if ParseMacro(m) == Some(d) {
      var w := WordPrefix(m);
      if d.value.Some? {
        assert m == m[..|w|] + "=" + m[|w| + 1..];
      } else {
        assert m == m[..|w|];
      }
    }
  }

  /** The header line of one macro. A name-only macro gets no line break,
      so whatever follows is glued onto its line. */
  function MacroLine(d: MacroDef): (r: string)
  {
    "#define " + d.name + (match d.value case None => "" case Some(v) => " " + v + "\n")
  }

  /** A macro line ends its line exactly when the macro has a value. */
  lemma MacroLineEnds(d: MacroDef)
    requires IsWord(d.name) && (d.value.Some? ==> WordChars(d.value.value))
    ensures NoNewline(MacroLine(d)) <==> d.value.None?
    ensures d.value.Some? ==> MacroLine(d)[|MacroLine(d)| - 1] == '\n'
  {
    var line := MacroLine(d);
    if d.value.None? {
      assert line == "#define " + d.name;
      forall k | 0 <= k < |line| ensures line[k] != '\n' {
        if k < 8 {
          assert line[k] == "#define "[k];
        } else {
          assert line[k] == d.name[k - 8];
          assert IsWordChar(d.name[k - 8]);
        }
      }
    } else {
      assert line == ("#define " + d.name + " " + d.value.value) + "\n";
      assert line[|line| - 1] == '\n';
    }
  }

  function VersionLine(v: nat): (r: string)
  {
    "#version " + Decimal(v) + "\n"
  }

  /** The header: the version line, then one line per macro in the caller's
      order. Every macro must be well formed. */
  function Header(v: nat, macros: seq<string>): (r: string)
    requires forall i :: 0 <= i < |macros| ==> ParseMacro(macros[i]).Some?
  {
    if macros == [] then VersionLine(v)
    else Header(v, macros[..|macros| - 1]) + MacroLine(ParseMacro(macros[|macros| - 1]).value)
  }

  /** The header opens with the version line. */
  lemma {:induction false} HeaderStart(v: nat, macros: seq<string>)
    requires forall i :: 0 <= i < |macros| ==> ParseMacro(macros[i]).Some?
    ensures |VersionLine(v)| <= |Header(v, macros)|
    ensures Header(v, macros)[..|VersionLine(v)|] == VersionLine(v)
    decreases |macros|
  {
    if macros != [] {
      var init := macros[..|macros| - 1];
      HeaderStart(v, init);
      var h := Header(v, init);
      var line := MacroLine(ParseMacro(macros[|macros| - 1]).value);
      assert (h + line)[..|VersionLine(v)|] == h[..|VersionLine(v)|];
    }
  }

  /** One more macro adds its line at the end of the header. */
  lemma HeaderSnoc(v: nat, macros: seq<string>, i: nat)
    requires forall i :: 0 <= i < |macros| ==> ParseMacro(macros[i]).Some?
    requires i < |macros|
    ensures Header(v, macros[..i + 1]) == Header(v, macros[..i]) + MacroLine(ParseMacro(macros[i]).value)
  {
    assert macros[..i + 1][..i] == macros[..i];
  }

  /** The separate pushes of one macro write its line. */
  lemma MacroPushes(h: string, d: MacroDef)
    ensures d.value.Some? ==> h + "#define " + d.name + " " + d.value.value + "\n" == h + MacroLine(d)
    ensures d.value.None? ==> h + "#define " + d.name == h + MacroLine(d)
  {
    if d.value.Some? {
      assert MacroLine(d) == "#define " + d.name + (" " + d.value.value + "\n");
    } else {
      assert MacroLine(d) == "#define " + d.name + "";
    }
  }

  /** The `for m in macros` loop; a malformed macro would panic. */
  method BuildHeader(v: nat, macros: seq<string>) returns (h: string)
    requires forall i :: 0 <= i < |macros| ==> ParseMacro(macros[i]).Some?
    ensures h == Header(v, macros)
  {
    h := "#version " + Decimal(v) + "\n";
    for i := 0 to |macros|
      invariant h == Header(v, macros[..i])
    {
      var d := ParseMacro(macros[i]).value;
      ghost var before := h;
      HeaderSnoc(v, macros, i);
      h := h + "#define ";
      h := h + d.name;
      if d.value.Some? {
        h := h + " ";
        h := h + d.value.value;
        h := h + "\n";
      }
      MacroPushes(before, d);
    }
    assert macros[..|macros|] == macros;
  }

  /** The define that selects a stage. */
  function StageToken(s: Stage): (t: string)
    ensures |t| > 0 && NoNewline(t)
  {
    match s
    case Vertex => "_VERTEX_"
    case Fragment => "_FRAGMENT_"
    case Geometry => "_GEOMETRY_"
    case TessControl => "_TESS_CONTROL_"
    case TessEval => "_TESS_EVAL_"
    case Compute => "_COMPUTE_"
  }

  /** The text between the header and the body, for one stage. */
  function StagePrologue(s: Stage): (r: string)
  {
    "#define " + StageToken(s) + "\n" + "#line 0 0\n"
  }

  /** The variant of one stage, present only when the stage is enabled: it
      opens with the shared header and closes with the whole body. */
  function Variant(header: string, body: string, mask: set<Stage>, s: Stage): (r: Option<string>)
    ensures r.Some? <==> s in mask
    ensures r.Some? ==> |header| + |body| < |r.value|
    ensures r.Some? ==> r.value[..|header|] == header && r.value[|r.value| - |body|..] == body
  {
    if s in mask then
      var text := header + (StagePrologue(s) + body);
      assert text == (header + StagePrologue(s)) + body;
      Some(text)
    else None
  }

  /** `PreprocessedShaders`: the six variants and the two pipeline slots. */
  datatype PreprocessedShaders = PreprocessedShaders(
    vertex: Option<string>,
    fragment: Option<string>,
    geometry: Option<string>,
    tessControl: Option<string>,
    tessEval: Option<string>,
    compute: Option<string>,
    inputLayout: Option<seq<VertexAttribute>>,
    primitiveTopology: Option<Topology>)

  /** The variant slot of a stage. */
  function ShaderOf(sh: PreprocessedShaders, s: Stage): (r: Option<string>)
  {
    match s
    case Vertex => sh.vertex
    case Fragment => sh.fragment
    case Geometry => sh.geometry
    case TessControl => sh.tessControl
    case TessEval => sh.tessEval
    case Compute => sh.compute
  }

  function Assemble(header: string, body: string, mask: set<Stage>,
                    layout: Option<seq<VertexAttribute>>, topology: Option<Topology>): (r: PreprocessedShaders)
  {
    PreprocessedShaders(
      Variant(header, body, mask, Vertex),
      Variant(header, body, mask, Fragment),
      Variant(header, body, mask, Geometry),
      Variant(header, body, mask, TessControl),
      Variant(header, body, mask, TessEval),
      Variant(header, body, mask, Compute),
      layout, topology)
  }

  /** The stages whose variant slot is filled. */
  function Present(sh: PreprocessedShaders): (r: set<Stage>)
  {
    (if sh.vertex.Some? then {Vertex} else {}) +
    (if sh.fragment.Some? then {Fragment} else {}) +
    (if sh.geometry.Some? then {Geometry} else {}) +
    (if sh.tessControl.Some? then {TessControl} else {}) +
    (if sh.tessEval.Some? then {TessEval} else {}) +
    (if sh.compute.Some? then {Compute} else {})
  }

  lemma PresentMembers(sh: PreprocessedShaders, s: Stage)
    ensures s in Present(sh) <==> ShaderOf(sh, s).Some?
  {
    match s
    case Vertex =>
    case Fragment =>
    case Geometry =>
    case TessControl =>
    case TessEval =>
    case Compute =>
  }

  lemma ShaderOfAssemble(header: string, body: string, mask: set<Stage>,
                         layout: Option<seq<VertexAttribute>>, topology: Option<Topology>, s: Stage)
    ensures ShaderOf(Assemble(header, body, mask, layout, topology), s) == Variant(header, body, mask, s)
  {
    match s
    case Vertex =>
    case Fragment =>
    case Geometry =>
    case TessControl =>
    case TessEval =>
    case Compute =>
  }

  /** A slot is filled exactly when its stage is in the mask, so there are
      as many variants as stages in the mask. */
  lemma VariantsPresent(header: string, body: string, mask: set<Stage>,
                        layout: Option<seq<VertexAttribute>>, topology: Option<Topology>)
    ensures forall s :: ShaderOf(Assemble(header, body, mask, layout, topology), s).Some? <==> s in mask
    ensures Present(Assemble(header, body, mask, layout, topology)) == mask
    ensures |Present(Assemble(header, body, mask, layout, topology))| == |mask|
  {
    var sh := Assemble(header, body, mask, layout, topology);
    forall s ensures ShaderOf(sh, s).Some? <==> s in mask {
      ShaderOfAssemble(header, body, mask, layout, topology, s);
    }
    forall s ensures s in Present(sh) <==> s in mask {
      PresentMembers(sh, s);
    }
  }

  /** With no stage enabled there is no variant, and the slots hold the
      layout and topology unchanged (a special case of `VariantsPresent`,
      kept apart so that the proofs using it stay small). */
  lemma AssembleEmpty(header: string, body: string, layout: Option<seq<VertexAttribute>>, topology: Option<Topology>)
    ensures Assemble(header, body, {}, layout, topology) == PreprocessedShaders(None, None, None, None, None, None, layout, topology)
  {
  }

  lemma NewlineAfter(a: string, r: string)
    requires NoNewline(a)
    ensures NewlineIndex(a + "\n" + r) == |a|
    decreases |a|
  {
    if a != [] {
      assert (a + "\n" + r)[1..] == a[1..] + "\n" + r;
      NewlineAfter(a[1..], r);
    }
  }

  /** Lines that agree up to their first line break agree on the text before
      it. */
  lemma FirstLineUnique(a: string, b: string, r: string, q: string)
    requires NoNewline(a) && NoNewline(b)
    requires a + "\n" + r == b + "\n" + q
    ensures a == b
  {
    NewlineAfter(a, r);
    NewlineAfter(b, q);
    assert a == (a + "\n" + r)[..|a|];
    assert b == (b + "\n" + q)[..|b|];
  }

  lemma StageTokenInjective(s: Stage, t: Stage)
    requires StageToken(s) == StageToken(t)
    ensures s == t
  {
  }

  /** Kept as its own lemma so that the proofs using it stay small. */
  lemma Regroup(h: string, a: string, t: string, q: string)
    ensures h + (a + t + q) == (h + a) + t + q
  {
  }

  /** A variant is the header, the stage define with its token, and the body
      after `#line 0 0`. */
  lemma VariantFrame(header: string, body: string, mask: set<Stage>, s: Stage)
    requires s in mask
    ensures Variant(header, body, mask, s).value ==
      (header + "#define ") + (StageToken(s) + "\n" + ("#line 0 0\n" + body))
  {
    var t := StageToken(s);
    var pro := "#define " + t + "\n" + "#line 0 0\n";
    assert pro == "#define " + (t + "\n" + "#line 0 0\n");
    Regroup(header, "#define ", t + "\n" + "#line 0 0\n", body);
    assert t + "\n" + "#line 0 0\n" + body == t + "\n" + ("#line 0 0\n" + body);
  }

  /** Two enabled stages get variants that share the header and the body and
      differ only in the stage token; different stages get different texts. */
  lemma VariantsDiffer(header: string, body: string, mask: set<Stage>, s: Stage, t: Stage)
    requires s in mask && t in mask
    ensures Variant(header, body, mask, s).value == (header + "#define ") + (StageToken(s) + "\n" + ("#line 0 0\n" + body))
    ensures Variant(header, body, mask, t).value == (header + "#define ") + (StageToken(t) + "\n" + ("#line 0 0\n" + body))
    ensures s != t ==> Variant(header, body, mask, s) != Variant(header, body, mask, t)
  {
    var p := header + "#define ";
    var q := "#line 0 0\n" + body;
    VariantFrame(header, body, mask, s);
    VariantFrame(header, body, mask, t);
    if Variant(header, body, mask, s) == Variant(header, body, mask, t) {
      assert (p + (StageToken(s) + "\n" + q))[|p|..] == StageToken(s) + "\n" + q;
      assert (p + (StageToken(t) + "\n" + q))[|p|..] == StageToken(t) + "\n" + q;
      FirstLineUnique(StageToken(s), StageToken(t), q, q);
      StageTokenInjective(s, t);
    }
  }

  /** The version the header announces: the last one the scan accepted, or
      330 when there was none. */
  function EffectiveVersion(v: Option<nat>): (r: nat)
  {
    match v
    case Some(x) => x
    case None => 330
  }

  /** The root file's accumulators after the scan. */
  ghost function Run(fs: FileSystem, rank: Path -> nat, source: string, path: Path): (r: Acc)
    requires fs.parent(path).Some?
    requires LinesBelow(fs, rank, Lines(source), fs.parent(path).value, rank(path))
    requires WellRanked(fs, rank)
  {
    ScanFile(fs, rank, source, path, rank(path), EmptyAcc).0
  }

  /** What `preprocess_combined_shader_source` returns. */
  ghost function Combined(fs: FileSystem, rank: Path -> nat, source: string, path: Path, macros: seq<string>): (r: (set<Stage>, PreprocessedShaders))
    requires fs.parent(path).Some?
    requires LinesBelow(fs, rank, Lines(source), fs.parent(path).value, rank(path))
    requires WellRanked(fs, rank)
    requires forall i :: 0 <= i < |macros| ==> ParseMacro(macros[i]).Some?
  {
    var acc := Run(fs, rank, source, path);
    (acc.stages,
     Assemble(Header(EffectiveVersion(acc.version), macros), Render(acc.chunks), acc.stages, acc.layout, acc.topology))
  }

  /** The entry point. The additional include directories are accepted and
      not used. */
  method PreprocessCombined(fs: FileSystem, source: string, path: Path, macros: seq<string>,
                            includePaths: seq<Path>, ghost rank: Path -> nat)
    returns (mask: set<Stage>, shaders: PreprocessedShaders)
    requires fs.parent(path).Some?
    requires LinesBelow(fs, rank, Lines(source), fs.parent(path).value, rank(path))
    requires WellRanked(fs, rank)
    requires forall i :: 0 <= i < |macros| ==> ParseMacro(macros[i]).Some?
    ensures (mask, shaders) == Combined(fs, rank, source, path, macros)
  {
    var ctx := new Context();
    var numErrors := ctx.ProcessFile(fs, source, path, rank, rank(path));
    var v := match ctx.version case Some(x) => x case None => 330;
    var header := BuildHeader(v, macros);
    mask := ctx.stages;
    shaders := Assemble(header, ctx.body, ctx.stages, ctx.layout, ctx.topology);
  }

  /** The source map of a run starts with the root file, is indexed by
      position, and every line directive in the body names one of its
      files and is followed by a copied line. */
  lemma RunWellFormed(fs: FileSystem, rank: Path -> nat, source: string, path: Path)
    requires fs.parent(path).Some?
    requires LinesBelow(fs, rank, Lines(source), fs.parent(path).value, rank(path))
    requires WellRanked(fs, rank)
    ensures WellFormed(Run(fs, rank, source, path))
    ensures |Run(fs, rank, source, path).sourceMap| > 0
    ensures Run(fs, rank, source, path).sourceMap[0] == SourceMapEntry(0, Some(path))
  {
    EmptyWellFormed();
    ScanFileWellFormed(fs, rank, source, path, rank(path), EmptyAcc);
  }

  lemma Decimal330()
    ensures VersionLine(330) == "#version 330\n"
  {
    assert Decimal(330) == Decimal(33) + ['0'];
    assert Decimal(33) == Decimal(3) + ['3'];
  }

  /** A run ends with no version exactly when no line of the
      include-expanded input is a `#version` line whose number parses. */
  lemma RunVersionNone(fs: FileSystem, rank: Path -> nat, source: string, path: Path)
    requires fs.parent(path).Some?
    requires LinesBelow(fs, rank, Lines(source), fs.parent(path).value, rank(path))
    requires WellRanked(fs, rank)
    ensures Run(fs, rank, source, path).version.None? <==>
      forall i :: 0 <= i < |Expanded(fs, rank, source, path)| ==> VersionValue(Expanded(fs, rank, source, path)[i]).None?
  {
    RunValues(fs, rank, source, path);
    LastVersionNone(Expanded(fs, rank, source, path));
  }

  /** When no line of the include-expanded input is a `#version` line with
      a number that parses, every variant opens with `#version 330`. */
  lemma DefaultVersion(fs: FileSystem, rank: Path -> nat, source: string, path: Path, macros: seq<string>, s: Stage)
    requires fs.parent(path).Some?
    requires LinesBelow(fs, rank, Lines(source), fs.parent(path).value, rank(path))
    requires WellRanked(fs, rank)
    requires forall i :: 0 <= i < |macros| ==> ParseMacro(macros[i]).Some?
    requires forall i :: 0 <= i < |Expanded(fs, rank, source, path)| ==> VersionValue(Expanded(fs, rank, source, path)[i]).None?
    requires ShaderOf(Combined(fs, rank, source, path, macros).1, s).Some?
    ensures |"#version 330\n"| <= |ShaderOf(Combined(fs, rank, source, path, macros).1, s).value|
    ensures ShaderOf(Combined(fs, rank, source, path, macros).1, s).value[..|"#version 330\n"|] == "#version 330\n"
  {
    RunVersionNone(fs, rank, source, path);
    var acc := Run(fs, rank, source, path);
    var h := Header(330, macros);
    var body := Render(acc.chunks);
    assert Combined(fs, rank, source, path, macros).1 == Assemble(h, body, acc.stages, acc.layout, acc.topology);
    ShaderOfAssemble(h, body, acc.stages, acc.layout, acc.topology, s);
    var text := Variant(h, body, acc.stages, s).value;
    HeaderStart(330, macros);
    Decimal330();
    assert text[..|VersionLine(330)|] == text[..|h|][..|VersionLine(330)|];
  }

  /** A root file without directives gives an empty mask, no layout, no
      topology and no variant; its body is the file itself. */
  lemma PlainCombined(fs: FileSystem, rank: Path -> nat, source: string, path: Path, macros: seq<string>)
    requires fs.parent(path).Some?
    requires LinesBelow(fs, rank, Lines(source), fs.parent(path).value, rank(path))
    requires WellRanked(fs, rank)
    requires forall i :: 0 <= i < |macros| ==> ParseMacro(macros[i]).Some?
    requires NoDirectives(Lines(source)) && NoCarriageReturn(source)
    requires source == [] || source[|source| - 1] == '\n'
    ensures Render(Run(fs, rank, source, path).chunks) == source
    ensures Combined(fs, rank, source, path, macros).0 == {}
    ensures Combined(fs, rank, source, path, macros).1 == PreprocessedShaders(None, None, None, None, None, None, None, None)
  {
    PlainSource(fs, rank, source, path, rank(path), EmptyAcc);
    var acc := Run(fs, rank, source, path);
    assert acc.stages == {} && acc.layout == None && acc.topology == None;
    assert Render(acc.chunks) == Render(EmptyAcc.chunks) + source;
    assert Render(EmptyAcc.chunks) == [];
    var h := Header(EffectiveVersion(acc.version), macros);
    assert Combined(fs, rank, source, path, macros) == (acc.stages, Assemble(h, Render(acc.chunks), acc.stages, acc.layout, acc.topology));
    AssembleEmpty(h, Render(acc.chunks), None, None);
  }
}
