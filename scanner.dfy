/** The line scanner and include expander, stated as functions over the
    accumulators it threads through the recursion. The class in the
    `Preprocessor` module carries out the same steps in place; these
    functions are what its methods are proved against. */
module Scanner {
  import opened Wrappers
  import opened Text
  import opened Pipeline
  import opened Directives
  import opened InputLayout

  type Path = string

  /** What the scanner sees of the file system: the contents of every file
      that can be opened, the parent directory of a path (absent for a root)
      and how a directory and an include argument combine into a path. */
  datatype FileSystem = FileSystem(
    files: map<Path, string>,
    parent: Path -> Option<Path>,
    join: (Path, string) -> Path)

  /** One entry of the source map: its own position and the file's path. */
  datatype SourceMapEntry = SourceMapEntry(index: nat, path: Option<Path>)

  /** A piece of the combined body: an injected `#line N F` directive or one
      copied source line. */
  datatype Chunk = LineMark(line: nat, file: nat) | Code(text: string)

  /** The text a chunk contributes to the body. */
  function ChunkText(c: Chunk): (r: string)
  {
    match c
    case LineMark(n, f) => "#line " + Decimal(n) + " " + Decimal(f) + "\n"
    case Code(t) => t + "\n"
  }

  /** The body the chunks make up. */
  function Render(cs: seq<Chunk>): (r: string)
  {
    if cs == [] then "" else Render(cs[..|cs| - 1]) + ChunkText(cs[|cs| - 1])
  }

  /** The accumulators shared by every level of the include recursion. */
  datatype Acc = Acc(
    chunks: seq<Chunk>,
    version: Option<nat>,
    stages: set<Stage>,
    layout: Option<seq<VertexAttribute>>,
    topology: Option<Topology>,
    sourceMap: seq<SourceMapEntry>)

  /** The accumulators before the root file is scanned. */
  const EmptyAcc := Acc([], None, {}, None, None, [])

  /** The per-file state: `cur_line`, the pending line-directive flag and the
      error count. */
  datatype Cursor = Cursor(line: nat, pending: bool, errors: nat)

  const StartCursor := Cursor(1, false, 0)

  /** The path an `#include` line asks for, resolved against dir. */
  function IncludePath(fs: FileSystem, dir: Path, line: string): (r: Path)
    requires Classify(line).Include?
  {
    fs.join(dir, Classify(line).target)
  }

  /** An include of an existing file leads to a file of lower rank, and that
      file has a parent directory. */
  predicate IncludeBelow(fs: FileSystem, rank: Path -> nat, line: string, dir: Path, bound: nat)
  {
    Classify(line).Include? && IncludePath(fs, dir, line) in fs.files ==>
      rank(IncludePath(fs, dir, line)) < bound && fs.parent(IncludePath(fs, dir, line)).Some?
  }

  predicate LinesBelow(fs: FileSystem, rank: Path -> nat, lines: seq<string>, dir: Path, bound: nat)
  {
    forall i :: 0 <= i < |lines| ==> IncludeBelow(fs, rank, lines[i], dir, bound)
  }

  /** The include graph of the file system is acyclic, as witnessed by rank:
      every file includes only files of lower rank. */
  predicate WellRanked(fs: FileSystem, rank: Path -> nat)
  {
    forall p :: p in fs.files && fs.parent(p).Some? ==>
      LinesBelow(fs, rank, Lines(fs.files[p]), fs.parent(p).value, rank(p))
  }

  /** A `#version` line: a parsable number becomes the version (whether the
      slot was empty, equal or different), anything else is one error; both
      advance the line counter and ask for a line directive. */
  function ApplyVersion(acc: Acc, cur: Cursor, digits: string): (r: (Acc, Cursor))
  {
    match ParseNumber(digits, I32_MAX)
    case Some(v) => (acc.(version := Some(v)), Cursor(cur.line + 1, true, cur.errors))
    case None => (acc, Cursor(cur.line + 1, true, cur.errors + 1))
  }

  /** The stages the known tags of a `stages(...)` list name. */
  function StagesIn(tags: seq<string>): (r: set<Stage>)
  {
    if tags == [] then {}
    else
      StagesIn(tags[..|tags| - 1]) +
      (match StageOf(tags[|tags| - 1]) case Some(s) => {s} case None => {})
  }

  /** How many tags of a `stages(...)` list are not stage names. */
  function UnknownStages(tags: seq<string>): (r: nat)
  {
    if tags == [] then 0
    else UnknownStages(tags[..|tags| - 1]) + (if StageOf(tags[|tags| - 1]).None? then 1 else 0)
  }

  /** A `#pragma` line, from its payload: it changes at most the stage mask
      and the layout and topology slots, and counts its errors. */
  function ApplyPragma(acc: Acc, errors: nat, payload: string): (r: (Acc, nat))
    ensures r.0.chunks == acc.chunks && r.0.version == acc.version && r.0.sourceMap == acc.sourceMap
    ensures acc.stages <= r.0.stages
    ensures acc.layout.Some? ==> r.0.layout == acc.layout
    ensures acc.topology.Some? ==> r.0.topology == acc.topology
    ensures errors <= r.1
  {
    match ParsePragma(payload)
    case StagesCmd(tags) =>
      (acc.(stages := acc.stages + StagesIn(tags)), errors + UnknownStages(tags))
    case InputLayoutCmd(entries) =>
      if acc.layout.Some? then (acc, errors + 1)
      else
        (match DecodeLayout(entries)
         case None => (acc, errors + 1)
         case Some(l) => (acc.(layout := Some(l)), errors))
    case TopologyCmd(token) =>
      if acc.topology.Some? then (acc, errors + 1)
      else
        (match TopologyOf(token)
         case None => (acc, errors + 1)
         case Some(t) => (acc.(topology := Some(t)), errors))
    case Unrecognised => (acc, errors + 1)
  }

  /** An ordinary line: the pending line directive, if any, then the line
      itself are appended to the body. */
  function ApplyOrdinary(acc: Acc, cur: Cursor, line: string, fileIndex: nat): (r: (Acc, Cursor))
  {
    var marks := if cur.pending then [LineMark(cur.line, fileIndex)] else [];
    (acc.(chunks := acc.chunks + marks + [Code(line)]), Cursor(cur.line + 1, false, cur.errors))
  }

  /** The whole of one file: its source-map entry, then its lines; the
      result holds the file's own error count. */
  ghost function ScanFile(fs: FileSystem, rank: Path -> nat, source: string, path: Path, bound: nat, acc: Acc): (r: (Acc, nat))
    requires fs.parent(path).Some?
    requires LinesBelow(fs, rank, Lines(source), fs.parent(path).value, bound)
    requires WellRanked(fs, rank)
    decreases bound, 1, 0
  {
    var fileIndex := |acc.sourceMap|;
    var start := acc.(sourceMap := acc.sourceMap + [SourceMapEntry(fileIndex, Some(path))]);
    var (a, c) := ScanLines(fs, rank, Lines(source), fs.parent(path).value, fileIndex, bound, start, StartCursor);
    (a, c.errors)
  }

  /** The lines of a file, first to last. */
  ghost function ScanLines(fs: FileSystem, rank: Path -> nat, lines: seq<string>, dir: Path, fileIndex: nat,
                           bound: nat, acc: Acc, cur: Cursor): (r: (Acc, Cursor))
    requires LinesBelow(fs, rank, lines, dir, bound)
    requires WellRanked(fs, rank)
    decreases bound, 0, |lines|
  {
    if lines == [] then (acc, cur)
    else
      var (a, c) := ScanStep(fs, rank, lines[0], dir, fileIndex, bound, acc, cur);
      ScanLines(fs, rank, lines[1..], dir, fileIndex, bound, a, c)
  }

  /** One line, by its classification. An include of a file that exists
      scans that file into the same accumulators and drops its error count;
      one that does not exist is an error. */
  ghost function ScanStep(fs: FileSystem, rank: Path -> nat, line: string, dir: Path, fileIndex: nat,
                          bound: nat, acc: Acc, cur: Cursor): (r: (Acc, Cursor))
    requires IncludeBelow(fs, rank, line, dir, bound)
    requires WellRanked(fs, rank)
    decreases bound, 0, 0
  {
    match Classify(line)
    case Include(target) =>
      var inc := IncludePath(fs, dir, line);
      if inc in fs.files then
        var (a, _) := ScanFile(fs, rank, fs.files[inc], inc, rank(inc), acc);
        (a, Cursor(cur.line + 1, true, cur.errors))
      else (acc, Cursor(cur.line + 1, true, cur.errors + 1))
    case Version(digits) => ApplyVersion(acc, cur, digits)
    case Pragma(payload) =>
      var (a, e) := ApplyPragma(acc, cur.errors, payload);
      (a, cur.(errors := e))
    case Ordinary => ApplyOrdinary(acc, cur, line, fileIndex)
  }
}
