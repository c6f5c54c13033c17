/** Recognition of the directive lines of a combined shader source and of the
    payloads of its `#pragma` lines, with the fixed lookup tables that decode
    stage names, attribute formats and topologies. */
module Directives {
  import opened Wrappers
  import opened Text
  import opened Pipeline

  /** What the line scanner makes of one line. */
  datatype Directive =
    | Include(target: string)   // `^\s*#include\s+"(.*)"\s*?$`
    | Version(digits: string)   // `^\s*#version\s+([0-9]*)\s*?$`
    | Pragma(payload: string)   // `^\s*#pragma\s+(.*)\s*?$`
    | Ordinary

  /** `^\s*KW\s+`: when the line starts (after whitespace) with the keyword
      followed by at least one whitespace character, the text after that
      whitespace. */
  function AfterKeyword(line: string, kw: string): (r: Option<string>)
    ensures r.Some? && |kw| > 0 ==> kw[0] in line
    ensures r.Some? ==> r.value == [] || !IsSpace(r.value[0])
  {
    var t := TrimStart(line);
    if |kw| < |t| && t[..|kw|] == kw && IsSpace(t[|kw|]) then
      TrimStartSuffix(line);
      assert |kw| > 0 ==> kw[0] == t[0] == line[|line| - |t|];
      Some(TrimStart(t[|kw|..]))
    else None
  }

  /** The include pattern: a quoted path, the greedy `(.*)` running up to the
      last quote that only whitespace follows. */
  function MatchInclude(line: string): (r: Option<string>)
  {
    match AfterKeyword(line, "#include")
    case None => None
    case Some(rest) =>
      if rest != [] && rest[0] == '"' then
        var u := TrimEnd(rest[1..]);
        if u != [] && u[|u| - 1] == '"' && '\n' !in u[..|u| - 1] then Some(u[..|u| - 1]) else None
      else None
  }

  /** The version pattern: a (possibly empty) run of digits, then only whitespace. */
  function MatchVersion(line: string): (r: Option<string>)
  {
    match AfterKeyword(line, "#version")
    case None => None
    case Some(rest) =>
      var d := DigitPrefix(rest);
      if AllSpace(rest[|d|..]) then Some(d) else None
  }

  /** The pragma pattern: everything after the whitespace that follows `#pragma`
      (trailing whitespace included, as the greedy `(.*)` keeps it). */
  function MatchPragma(line: string): (r: Option<string>)
  {
    match AfterKeyword(line, "#pragma")
    case None => None
    case Some(rest) => if '\n' !in rest then Some(rest) else None
  }

  /** The scanner's classification: include first, then version, then pragma;
      anything else is an ordinary line. */
  function Classify(line: string): (d: Directive)
    ensures '#' !in line ==> d == Ordinary
    ensures d.Include? ==> '\n' !in d.target
    ensures d.Version? ==> AllDigits(d.digits)
    ensures d.Pragma? ==> '\n' !in d.payload && (d.payload == [] || !IsSpace(d.payload[0]))
  {
    match MatchInclude(line)
    case Some(p) => Include(p)
    case None =>
      match MatchVersion(line)
      case Some(d) => Version(d)
      case None =>
        match MatchPragma(line)
        case Some(p) => Pragma(p)
        case None => Ordinary
  }

  /** `KW s` with s starting at a non-blank character leaves s after the keyword. */
  lemma {:induction false} AfterKeywordOf(kw: string, s: string)
    requires kw != [] && kw[0] == '#'
    requires s == [] || !IsSpace(s[0])
    ensures AfterKeyword(kw + " " + s, kw) == Some(s)
  {
    var line := kw + " " + s;
    assert TrimStart(line) == line;
    assert line[..|kw|] == kw;
    assert line[|kw|..] == [' '] + s;
    assert TrimStart([' '] + s) == s by { assert ([' '] + s)[1..] == s; }
  }

  /** A line whose (unindented) text differs from the keyword at position i is not that directive. */
  lemma {:induction false} NotKeyword(line: string, kw: string, i: nat)
    requires line != [] && line[0] == '#'
    requires i < |kw| && i < |line| && line[i] != kw[i]
    ensures AfterKeyword(line, kw) == None
  {
    assert TrimStart(line) == line;
    if |kw| < |line| { assert line[..|kw|][i] != kw[i]; }
  }

  /** A `#include "p"` line is recognised with its path. */
  lemma {:induction false} IncludeLineRoundTrip(p: string)
    requires '\n' !in p
    ensures Classify("#include \"" + p + "\"") == Include(p)
  {
    var quoted := "\"" + p + "\"";
    AfterKeywordOf("#include", quoted);
    assert "#include \"" + p + "\"" == "#include" + " " + quoted;
    assert quoted[1..] == p + "\"";
    assert TrimEnd(p + "\"") == p + "\"";
    assert (p + "\"")[..|p|] == p;
  }

  /** A `#version N` line, as the variant header writes it, is recognised
      with the digits of N. */
  lemma {:induction false} VersionLineRoundTrip(n: nat)
    ensures Classify("#version " + Decimal(n)) == Version(Decimal(n))
  {
    var line := "#version " + Decimal(n);
    NotKeyword(line, "#include", 1);
    AfterKeywordOf("#version", Decimal(n));
    assert line == "#version" + " " + Decimal(n);
    DigitPrefixOfDigits(Decimal(n));
  }

  /** A `#version` line with nothing after the keyword is still a version
      line, with empty digits; the caller then counts it as malformed. */
  lemma EmptyVersionLine()
    ensures Classify("#version ") == Version("")
  {
    var line := "#version ";
    NotKeyword(line, "#include", 1);
    AfterKeywordOf("#version", "");
    assert line == "#version" + " " + "";
  }

  /** A `#pragma P` line is recognised with its payload, for any payload that
      starts with a non-space and stays on one line. */
  lemma PragmaLineRoundTrip(p: string)
    requires p != [] && !IsSpace(p[0]) && '\n' !in p
    ensures Classify("#pragma " + p) == Pragma(p)
  {
    var line := "#pragma " + p;
    assert line == "#pragma" + " " + p;
    NotKeyword(line, "#include", 1);
    NotKeyword(line, "#version", 1);
    AfterKeywordOf("#pragma", p);
  }

  lemma {:induction false} DigitPrefixOfDigits(s: string)
    requires AllDigits(s)
    ensures DigitPrefix(s) == s
  {
    if s != [] {
      DigitPrefixOfDigits(s[1..]);
    }
  }

  /** A `#line N F` marker is an ordinary line: the markers the scanner
      writes are never taken for directives. */
  lemma {:induction false} LineMarkIsOrdinary(n: nat, f: nat)
    ensures Classify("#line " + Decimal(n) + " " + Decimal(f)) == Ordinary
  {
    var line := "#line " + (Decimal(n) + " " + Decimal(f));
    assert line == "#line " + Decimal(n) + " " + Decimal(f);
    assert line[0] == '#' && line[1] == 'l';
    NotKeyword(line, "#include", 1);
    NotKeyword(line, "#version", 1);
    NotKeyword(line, "#pragma", 1);
  }

  /** What a pragma payload asks for. */
  datatype PragmaCommand =
    | StagesCmd(tags: seq<string>)         // `stages(a, b, ...)`
    | InputLayoutCmd(entries: seq<string>) // `input_layout(f, s, o, ...)`
    | TopologyCmd(token: string)           // `primitive_topology(t)`
    | Unrecognised

  predicate AllWords(ws: seq<string>)
  {
    forall i :: 0 <= i < |ws| ==> IsWord(ws[i])
  }

  /** `\w+(?:\s*,\s*\w+)*\s*\)\s*?$`, from where the first word starts: the
      words of the list, which is what splitting the captured list at commas
      and trimming each piece yields. */
  function ParseWords(s: string): (r: Option<seq<string>>)
    ensures r.Some? ==> |r.value| > 0 && AllWords(r.value)
    decreases |s|
  {
    var w := WordPrefix(s);
    if w == [] then None
    else
      assert IsWord(w);
      var t := TrimStart(s[|w|..]);
      if t != [] && t[0] == ',' then
        match ParseWords(TrimStart(t[1..]))
        case None => None
        case Some(ws) =>
          AllWordsCons(w, ws);
          Some([w] + ws)
      else if t != [] && t[0] == ')' && AllSpace(t[1..]) then Some([w])
      else None
  }

  lemma AllWordsCons(w: string, ws: seq<string>)
    requires IsWord(w) && AllWords(ws)
    ensures AllWords([w] + ws)
  {
    forall i | 0 <= i < |[w] + ws| ensures IsWord(([w] + ws)[i]) {
      if i > 0 { assert ([w] + ws)[i] == ws[i - 1]; }
    }
  }

  /** `^KW\s*\(\s*` followed by the word list. */
  function KeywordList(payload: string, kw: string): (r: Option<seq<string>>)
  {
    if |kw| <= |payload| && payload[..|kw|] == kw then
      var t := TrimStart(payload[|kw|..]);
      if t != [] && t[0] == '(' then ParseWords(TrimStart(t[1..])) else None
    else None
  }

  /** The three pragma shapes, tried in order; `primitive_topology` takes
      exactly one word. */
  function ParsePragma(payload: string): (c: PragmaCommand)
    ensures c.StagesCmd? ==> |c.tags| > 0 && AllWords(c.tags)
    ensures c.InputLayoutCmd? ==> |c.entries| > 0 && AllWords(c.entries)
    ensures c.TopologyCmd? ==> IsWord(c.token)
  {
    match KeywordList(payload, "stages")
    case Some(tags) => StagesCmd(tags)
    case None =>
      match KeywordList(payload, "input_layout")
      case Some(entries) => InputLayoutCmd(entries)
      case None =>
        match KeywordList(payload, "primitive_topology")
        case Some(ts) => if |ts| == 1 then TopologyCmd(ts[0]) else Unrecognised
        case None => Unrecognised
  }

  /** The words separated by ", ". */
  function CommaList(ws: seq<string>): (r: string)
    requires |ws| > 0
  {
    if |ws| == 1 then ws[0] else ws[0] + ", " + CommaList(ws[1..])
  }

  /** A word list ends at a closing parenthesis. */
  lemma {:induction false} ParseWordsLast(w: string)
    requires IsWord(w)
    ensures ParseWords(w + ")") == Some([w])
  {
    var s := w + ")";
    WordPrefixOfWord(w, ")");
    assert WordPrefix(s) == w;
    assert s[|w|..] == ")";
    assert AllSpace(")"[1..]);
  }

  /** A word followed by ", " continues the list. */
  lemma {:induction false} ParseWordsCons(w: string, x: string)
    requires IsWord(w) && x != [] && !IsSpace(x[0])
    ensures ParseWords(w + (", " + x)) ==
      match ParseWords(x) case None => None case Some(ws) => Some([w] + ws)
  {
    var s := w + (", " + x);
    WordPrefixOfWord(w, ", " + x);
    assert s[|w|..] == ", " + x;
    assert TrimStart(", " + x) == ", " + x;
    assert (", " + x)[1..] == [' '] + x;
    assert TrimStart([' '] + x) == x by { assert ([' '] + x)[1..] == x; }
  }

  /** Reading back a list written with `CommaList` and a closing
      parenthesis yields the list. */
  lemma {:induction false} ParseWordsRoundTrip(ws: seq<string>)
    requires |ws| > 0 && AllWords(ws)
    ensures ParseWords(CommaList(ws) + ")") == Some(ws)
    decreases |ws|
  {
    if |ws| == 1 {
      assert CommaList(ws) == ws[0];
      assert IsWord(ws[0]);
      ParseWordsLast(ws[0]);
      assert ws == [ws[0]];
    } else {
      var x := CommaList(ws[1..]) + ")";
      CommaListCons(ws);
      CommaListStart(ws[1..]);
      ParseWordsRoundTrip(ws[1..]);
      ParseWordsCons(ws[0], x);
      assert [ws[0]] + ws[1..] == ws;
    }
  }

  lemma CommaListCons(ws: seq<string>)
    requires |ws| > 1
    ensures CommaList(ws) + ")" == ws[0] + (", " + (CommaList(ws[1..]) + ")"))
  {
  }

  lemma {:induction false} CommaListStart(ws: seq<string>)
    requires |ws| > 0 && IsWord(ws[0])
    ensures |CommaList(ws)| > 0 && CommaList(ws)[0] == ws[0][0]
    ensures !IsSpace((CommaList(ws) + ")")[0])
  {
  }

  /** `KW(list)` is read as that list. */
  lemma {:induction false} KeywordListOf(kw: string, ws: seq<string>)
    requires |ws| > 0 && AllWords(ws)
    ensures KeywordList(kw + "(" + CommaList(ws) + ")", kw) == Some(ws)
  {
    var x := CommaList(ws) + ")";
    var p := kw + ("(" + x);
    assert p == kw + "(" + CommaList(ws) + ")";
    CommaListStart(ws);
    assert IsWordChar(ws[0][0]) && !IsSpace(x[0]);
    assert p[..|kw|] == kw;
    assert p[|kw|..] == "(" + x;
    assert TrimStart("(" + x) == "(" + x;
    assert ("(" + x)[1..] == x;
    assert TrimStart(x) == x;
    ParseWordsRoundTrip(ws);
  }

  /** A payload that does not start like the keyword is not that keyword's
      list. */
  lemma KeywordMismatch(p: string, kw: string)
    requires |p| > 0 && |kw| > 0 && p[0] != kw[0]
    ensures KeywordList(p, kw) == None
  {
    if |kw| <= |p| {
      assert p[..|kw|][0] != kw[0];
    }
  }

  /** A `stages(...)` payload written from a list of names is read back as
      that list. */
  lemma {:induction false} StagesPragmaRoundTrip(tags: seq<string>)
    requires |tags| > 0 && AllWords(tags)
    ensures ParsePragma("stages(" + CommaList(tags) + ")") == StagesCmd(tags)
  {
    assert "stages(" == "stages" + "(";
    KeywordListOf("stages", tags);
  }

  /** An `input_layout(...)` payload written from a list of entries is read
      back as that list. */
  lemma {:induction false} InputLayoutPragmaRoundTrip(entries: seq<string>)
    requires |entries| > 0 && AllWords(entries)
    ensures ParsePragma("input_layout(" + CommaList(entries) + ")") == InputLayoutCmd(entries)
  {
    var p := "input_layout(" + CommaList(entries) + ")";
    KeywordMismatch(p, "stages");
    assert "input_layout(" == "input_layout" + "(";
    KeywordListOf("input_layout", entries);
  }

  /** A `primitive_topology(t)` payload is read back as t. */
  lemma {:induction false} TopologyPragmaRoundTrip(token: string)
    requires IsWord(token)
    ensures ParsePragma("primitive_topology(" + token + ")") == TopologyCmd(token)
  {
    var p := "primitive_topology(" + token + ")";
    KeywordMismatch(p, "stages");
    KeywordMismatch(p, "input_layout");
    assert CommaList([token]) == token;
    assert "primitive_topology(" == "primitive_topology" + "(";
    KeywordListOf("primitive_topology", [token]);
  }

  /** The stage table of `#pragma stages`. */
  function StageOf(tag: string): (r: Option<Stage>)
  {
    if tag == "vertex" then Some(Vertex)
    else if tag == "fragment" then Some(Fragment)
    else if tag == "geometry" then Some(Geometry)
    else if tag == "tess_control" then Some(TessControl)
    else if tag == "tess_eval" then Some(TessEval)
    else if tag == "compute" then Some(Compute)
    else None
  }

  /** The name a stage is requested by. */
  function StageName(s: Stage): (r: string)
  {
    match s
    case Vertex => "vertex"
    case Fragment => "fragment"
    case Geometry => "geometry"
    case TessControl => "tess_control"
    case TessEval => "tess_eval"
    case Compute => "compute"
  }

  /** The stage table is a bijection between the six names and the six stages. */
  lemma {:induction false} StageTable(tag: string, s: Stage)
    ensures StageOf(tag) == Some(s) <==> tag == StageName(s)
  {
  }

  /** The attribute-format table of `#pragma input_layout`: component type,
      component count and normalisation. */
  datatype AttribFormat = AttribFormat(ty: ComponentType, size: nat, normalized: bool)

  function FormatOf(token: string): (r: Option<AttribFormat>)
  {
    if token == "rgba32f" then Some(AttribFormat(GlFloat, 4, false))
    else if token == "rgb32f" then Some(AttribFormat(GlFloat, 3, false))
    else if token == "rg32f" then Some(AttribFormat(GlFloat, 2, false))
    else if token == "r32f" then Some(AttribFormat(GlFloat, 1, false))
    else if token == "rgba16_snorm" then Some(AttribFormat(GlShort, 4, true))
    else if token == "rgb16_snorm" then Some(AttribFormat(GlShort, 3, true))
    else if token == "rg16_snorm" then Some(AttribFormat(GlShort, 2, true))
    else if token == "r16_snorm" then Some(AttribFormat(GlShort, 1, true))
    else if token == "rgba8_unorm" then Some(AttribFormat(GlUnsignedByte, 4, true))
    else if token == "rgba8_snorm" then Some(AttribFormat(GlByte, 4, true))
    else None
  }

  /** The token that names a format, for the ten formats the table knows. */
  function FormatName(f: AttribFormat): (r: Option<string>)
  {
    match f.ty
    case GlFloat =>
      if f.normalized then None
      else if f.size == 4 then Some("rgba32f")
      else if f.size == 3 then Some("rgb32f")
      else if f.size == 2 then Some("rg32f")
      else if f.size == 1 then Some("r32f")
      else None
    case GlShort =>
      if !f.normalized then None
      else if f.size == 4 then Some("rgba16_snorm")
      else if f.size == 3 then Some("rgb16_snorm")
      else if f.size == 2 then Some("rg16_snorm")
      else if f.size == 1 then Some("r16_snorm")
      else None
    case GlUnsignedByte => if f.normalized && f.size == 4 then Some("rgba8_unorm") else None
    case GlByte => if f.normalized && f.size == 4 then Some("rgba8_snorm") else None
  }

  /** The format table is a bijection between its ten tokens and the formats
      FormatName names; every format it yields has one to four components. */
  lemma {:induction false} FormatTable(token: string, f: AttribFormat)
    ensures FormatOf(token) == Some(f) <==> FormatName(f) == Some(token)
    ensures FormatOf(token) == Some(f) ==> 1 <= f.size <= 4
  {
  }

  /** The topology table of `#pragma primitive_topology`. */
  function TopologyOf(token: string): (r: Option<Topology>)
  {
    if token == "triangle" then Some(GlTriangles)
    else if token == "line" then Some(GlLines)
    else None
  }

  function TopologyName(t: Topology): (r: string)
  {
    match t
    case GlTriangles => "triangle"
    case GlLines => "line"
  }

  lemma {:induction false} TopologyTable(token: string, t: Topology)
    ensures TopologyOf(token) == Some(t) <==> token == TopologyName(t)
  {
  }
}
