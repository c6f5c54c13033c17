/** The metadata a scan collects (version, stage mask, input layout,
    topology) depend only on the directive lines of the include-expanded
    line stream, taken in textual order: the last parsable `#version` wins,
    the stage mask is the union of every `stages(...)` list, and the layout
    and topology are the first valid ones. */
module ScanMeta {
  import opened Wrappers
  import opened Text
  import opened Pipeline
  import opened Directives
  import opened InputLayout
  import opened Scanner

  /** The lines of a file with every include of an existing file replaced,
      recursively, by that file's lines; includes of missing files vanish. */
  ghost function ExpandLines(fs: FileSystem, rank: Path -> nat, lines: seq<string>, dir: Path, bound: nat): (r: seq<string>)
    requires LinesBelow(fs, rank, lines, dir, bound)
    requires WellRanked(fs, rank)
    decreases bound, 0, |lines|
  {
    if lines == [] then []
    else ExpandLine(fs, rank, lines[0], dir, bound) + ExpandLines(fs, rank, lines[1..], dir, bound)
  }

  ghost function ExpandLine(fs: FileSystem, rank: Path -> nat, line: string, dir: Path, bound: nat): (r: seq<string>)
    requires IncludeBelow(fs, rank, line, dir, bound)
    requires WellRanked(fs, rank)
    decreases bound, 0, 0
  {
    if Classify(line).Include? then
      var inc := IncludePath(fs, dir, line);
      if inc in fs.files then ExpandLines(fs, rank, Lines(fs.files[inc]), fs.parent(inc).value, rank(inc))
      else []
    else [line]
  }

  /** The effect of one line of the expanded stream on the metadata. */
  function MetaStep(acc: Acc, line: string): (r: Acc)
  {
    match Classify(line)
    case Version(digits) => ApplyVersion(acc, StartCursor, digits).0
    case Pragma(payload) => ApplyPragma(acc, 0, payload).0
    case _ => acc
  }

  function MetaFold(acc: Acc, lines: seq<string>): (r: Acc)
    decreases |lines|
  {
    if lines == [] then acc else MetaFold(MetaStep(acc, lines[0]), lines[1..])
  }

  /** Same metadata. */
  predicate SameMeta(a: Acc, b: Acc)
  {
    a.version == b.version && a.stages == b.stages && a.layout == b.layout && a.topology == b.topology
  }

  lemma {:induction false} MetaFoldAppend(acc: Acc, xs: seq<string>, ys: seq<string>)
    ensures MetaFold(acc, xs + ys) == MetaFold(MetaFold(acc, xs), ys)
    decreases |xs|
  {
    if xs == [] {
      assert xs + ys == ys;
    } else {
      assert (xs + ys)[1..] == xs[1..] + ys;
      MetaFoldAppend(MetaStep(acc, xs[0]), xs[1..], ys);
    }
  }

  lemma MetaStepSame(a: Acc, b: Acc, line: string)
    requires SameMeta(a, b)
    ensures SameMeta(MetaStep(a, line), MetaStep(b, line))
  {
    match Classify(line)
    case Version(digits) =>
    case Pragma(payload) =>
      assert a.stages == b.stages && a.layout == b.layout && a.topology == b.topology;
    case _ =>
  }

  /** The scan of a list of lines has the metadata of the fold over their
      expansion. */
  lemma {:induction false} ScanLinesMeta(fs: FileSystem, rank: Path -> nat, lines: seq<string>, dir: Path, fileIndex: nat,
                                         bound: nat, acc: Acc, cur: Cursor, m: Acc)
    requires LinesBelow(fs, rank, lines, dir, bound)
    requires WellRanked(fs, rank)
    requires SameMeta(acc, m)
    ensures SameMeta(ScanLines(fs, rank, lines, dir, fileIndex, bound, acc, cur).0,
                     MetaFold(m, ExpandLines(fs, rank, lines, dir, bound)))
    decreases bound, 0, |lines|
  {
    if lines == [] {
    } else {
      assert IncludeBelow(fs, rank, lines[0], dir, bound);
      assert LinesBelow(fs, rank, lines[1..], dir, bound) by {
        forall i | 0 <= i < |lines[1..]| ensures IncludeBelow(fs, rank, lines[1..][i], dir, bound) {
          assert lines[1..][i] == lines[i + 1];
        }
      }
      var (a, c) := ScanStep(fs, rank, lines[0], dir, fileIndex, bound, acc, cur);
      var head := ExpandLine(fs, rank, lines[0], dir, bound);
      var m1 := MetaFold(m, head);
      ScanStepMeta(fs, rank, lines[0], dir, fileIndex, bound, acc, cur, m);
      ScanLinesMeta(fs, rank, lines[1..], dir, fileIndex, bound, a, c, m1);
      MetaFoldAppend(m, head, ExpandLines(fs, rank, lines[1..], dir, bound));
    }
  }

  lemma {:induction false} ScanStepMeta(fs: FileSystem, rank: Path -> nat, line: string, dir: Path, fileIndex: nat,
                                        bound: nat, acc: Acc, cur: Cursor, m: Acc)
    requires IncludeBelow(fs, rank, line, dir, bound)
    requires WellRanked(fs, rank)
    requires SameMeta(acc, m)
    ensures SameMeta(ScanStep(fs, rank, line, dir, fileIndex, bound, acc, cur).0,
                     MetaFold(m, ExpandLine(fs, rank, line, dir, bound)))
    decreases bound, 0, 0
  {
    if Classify(line).Include? {
      var inc := IncludePath(fs, dir, line);
      if inc in fs.files {
        var start := acc.(sourceMap := acc.sourceMap + [SourceMapEntry(|acc.sourceMap|, Some(inc))]);
        ScanLinesMeta(fs, rank, Lines(fs.files[inc]), fs.parent(inc).value, |acc.sourceMap|, rank(inc), start, StartCursor, m);
      }
    } else {
      assert MetaFold(m, [line]) == MetaStep(m, line);
      MetaStepSame(acc, m, line);
    }
  }

  /** The stream a whole run reads: the root file, expanded. */
  ghost function Expanded(fs: FileSystem, rank: Path -> nat, source: string, path: Path): (r: seq<string>)
    requires fs.parent(path).Some?
    requires LinesBelow(fs, rank, Lines(source), fs.parent(path).value, rank(path))
    requires WellRanked(fs, rank)
  {
    ExpandLines(fs, rank, Lines(source), fs.parent(path).value, rank(path))
  }

  /** A run ends with the metadata of the fold over its expanded stream. */
  lemma RunMeta(fs: FileSystem, rank: Path -> nat, source: string, path: Path)
    requires fs.parent(path).Some?
    requires LinesBelow(fs, rank, Lines(source), fs.parent(path).value, rank(path))
    requires WellRanked(fs, rank)
    ensures SameMeta(ScanFile(fs, rank, source, path, rank(path), EmptyAcc).0,
                     MetaFold(EmptyAcc, Expanded(fs, rank, source, path)))
  {
    var start := EmptyAcc.(sourceMap := EmptyAcc.sourceMap + [SourceMapEntry(0, Some(path))]);
    var dir := fs.parent(path).value;
    ScanLinesMeta(fs, rank, Lines(source), dir, 0, rank(path), start, StartCursor, EmptyAcc);
    assert ScanFile(fs, rank, source, path, rank(path), EmptyAcc).0 ==
           ScanLines(fs, rank, Lines(source), dir, 0, rank(path), start, StartCursor).0;
  }

  /** The version a `#version` line sets, if it parses. */
  function VersionValue(line: string): (r: Option<nat>)
  {
    match Classify(line)
    case Version(digits) => ParseNumber(digits, I32_MAX)
    case _ => None
  }

  /** The value of the last `#version` line that parses, or v. */
  function LastVersion(lines: seq<string>, v: Option<nat>): (r: Option<nat>)
    decreases |lines|
  {
    if lines == [] then v
    else
      match VersionValue(lines[|lines| - 1])
      case Some(n) => Some(n)
      case None => LastVersion(lines[..|lines| - 1], v)
  }

  /** The version stays empty exactly when no line is a `#version` line
      whose number parses. */
  lemma {:induction false} LastVersionNone(lines: seq<string>)
    ensures LastVersion(lines, None) == None <==> forall i :: 0 <= i < |lines| ==> VersionValue(lines[i]).None?
    decreases |lines|
  {
    if lines != [] {
      var init := lines[..|lines| - 1];
      var k := |lines| - 1;
      LastVersionNone(init);
      if VersionValue(lines[k]).Some? {
        assert LastVersion(lines, None) == VersionValue(lines[k]);
      } else {
        assert LastVersion(lines, None) == LastVersion(init, None);
        if LastVersion(init, None) == None {
          forall i | 0 <= i < |lines| ensures VersionValue(lines[i]).None? {
            if i < k {
              assert lines[i] == init[i];
              assert VersionValue(init[i]).None?;
            } else {
              assert i == k;
            }
          }
        } else {
          var i :| 0 <= i < |init| && VersionValue(init[i]).Some?;
          assert lines[i] == init[i];
        }
      }
    }
  }

  /** Line i is a `#version` line with value v, and no parsable `#version`
      line follows it. */
  predicate LastVersionAt(lines: seq<string>, i: int, v: Option<nat>)
  {
    0 <= i < |lines| && VersionValue(lines[i]) == v &&
    forall j :: i < j < |lines| ==> VersionValue(lines[j]).None?
  }

  /** A version that is set comes from a `#version` line after which no
      other parsable `#version` line follows: the last one wins. */
  lemma {:induction false} LastVersionWins(lines: seq<string>)
    requires LastVersion(lines, None).Some?
    ensures exists i :: LastVersionAt(lines, i, LastVersion(lines, None))
    decreases |lines|
  {
    var init := lines[..|lines| - 1];
    var k := |lines| - 1;
    if VersionValue(lines[k]).None? {
      assert LastVersion(lines, None) == LastVersion(init, None);
      LastVersionWins(init);
      var i :| LastVersionAt(init, i, LastVersion(init, None));
      forall j | i < j < |lines| ensures VersionValue(lines[j]).None? {
        if j < k {
          assert lines[j] == init[j];
          assert VersionValue(init[j]).None?;
        } else {
          assert j == k;
        }
      }
      assert lines[i] == init[i];
      assert LastVersionAt(lines, i, LastVersion(lines, None));
    } else {
      assert LastVersionAt(lines, k, LastVersion(lines, None));
    }
  }

  /** The stages a `stages(...)` line names. */
  function LineStages(line: string): (r: set<Stage>)
  {
    match Classify(line)
    case Pragma(payload) =>
      (match ParsePragma(payload) case StagesCmd(tags) => StagesIn(tags) case _ => {})
    case _ => {}
  }

  /** The stages named by every `stages(...)` pragma of the lines. */
  function NamedStages(lines: seq<string>): (r: set<Stage>)
    decreases |lines|
  {
    if lines == [] then {}
    else NamedStages(lines[..|lines| - 1]) + LineStages(lines[|lines| - 1])
  }

  /** The layout an `input_layout(...)` line would set into an empty slot. */
  function LayoutValue(line: string): (r: Option<seq<VertexAttribute>>)
  {
    match Classify(line)
    case Pragma(payload) =>
      (match ParsePragma(payload) case InputLayoutCmd(entries) => DecodeLayout(entries) case _ => None)
    case _ => None
  }

  /** The topology a `primitive_topology(...)` line would set into an empty
      slot. */
  function TopologyValue(line: string): (r: Option<Topology>)
  {
    match Classify(line)
    case Pragma(payload) =>
      (match ParsePragma(payload) case TopologyCmd(token) => TopologyOf(token) case _ => None)
    case _ => None
  }

  /** The first layout of the lines that decodes. */
  function FirstLayout(lines: seq<string>): (r: Option<seq<VertexAttribute>>)
    decreases |lines|
  {
    if lines == [] then None
    else if LayoutValue(lines[0]).Some? then LayoutValue(lines[0])
    else FirstLayout(lines[1..])
  }

  /** The first valid topology of the lines. */
  function FirstTopology(lines: seq<string>): (r: Option<Topology>)
    decreases |lines|
  {
    if lines == [] then None
    else if TopologyValue(lines[0]).Some? then TopologyValue(lines[0])
    else FirstTopology(lines[1..])
  }

  /** Over a stream of lines: the last parsable version wins, every stage
      list adds its stages, and the layout and topology slots keep the
      first valid value (or the one they already had). */
  lemma {:induction false} MetaFoldValues(acc: Acc, lines: seq<string>)
    ensures MetaFold(acc, lines).version == LastVersion(lines, acc.version)
    ensures MetaFold(acc, lines).stages == acc.stages + NamedStages(lines)
    ensures MetaFold(acc, lines).layout == if acc.layout.Some? then acc.layout else FirstLayout(lines)
    ensures MetaFold(acc, lines).topology == if acc.topology.Some? then acc.topology else FirstTopology(lines)
    decreases |lines|
  {
    if lines != [] {
      var init := lines[..|lines| - 1];
      var last := lines[|lines| - 1];
      assert lines == init + [last];
      MetaFoldAppend(acc, init, [last]);
      MetaFoldValues(acc, init);
      FirstLayoutSnoc(init, last);
      FirstTopologySnoc(init, last);
      var a := MetaFold(acc, init);
      assert MetaFold(a, [last]) == MetaStep(a, last);
      MetaStepValues(a, last);
    }
  }

  /** One line of the stream: a parsable version replaces the version, a
      stage list adds its stages, and a valid layout or topology fills its
      slot only when the slot is empty. */
  lemma MetaStepValues(a: Acc, line: string)
    ensures MetaStep(a, line).version == if VersionValue(line).Some? then VersionValue(line) else a.version
    ensures MetaStep(a, line).stages == a.stages + LineStages(line)
    ensures MetaStep(a, line).layout == if a.layout.Some? then a.layout else LayoutValue(line)
    ensures MetaStep(a, line).topology == if a.topology.Some? then a.topology else TopologyValue(line)
  {
  }

  lemma {:induction false} FirstLayoutSnoc(init: seq<string>, last: string)
    ensures FirstLayout(init + [last]) == if FirstLayout(init).Some? then FirstLayout(init) else LayoutValue(last)
    decreases |init|
  {
    if init == [] {
      assert [] + [last] == [last];
    } else {
      assert (init + [last])[1..] == init[1..] + [last];
      FirstLayoutSnoc(init[1..], last);
    }
  }

  lemma {:induction false} FirstTopologySnoc(init: seq<string>, last: string)
    ensures FirstTopology(init + [last]) == if FirstTopology(init).Some? then FirstTopology(init) else TopologyValue(last)
    decreases |init|
  {
    if init == [] {
      assert [] + [last] == [last];
    } else {
      assert (init + [last])[1..] == init[1..] + [last];
      FirstTopologySnoc(init[1..], last);
    }
  }

  /** A run's version, stage mask, layout and topology, read off its
      expanded stream. */
  lemma RunValues(fs: FileSystem, rank: Path -> nat, source: string, path: Path)
    requires fs.parent(path).Some?
    requires LinesBelow(fs, rank, Lines(source), fs.parent(path).value, rank(path))
    requires WellRanked(fs, rank)
    ensures ScanFile(fs, rank, source, path, rank(path), EmptyAcc).0.version == LastVersion(Expanded(fs, rank, source, path), None)
    ensures ScanFile(fs, rank, source, path, rank(path), EmptyAcc).0.stages == NamedStages(Expanded(fs, rank, source, path))
    ensures ScanFile(fs, rank, source, path, rank(path), EmptyAcc).0.layout == FirstLayout(Expanded(fs, rank, source, path))
    ensures ScanFile(fs, rank, source, path, rank(path), EmptyAcc).0.topology == FirstTopology(Expanded(fs, rank, source, path))
  {
    RunMeta(fs, rank, source, path);
    MetaFoldValues(EmptyAcc, Expanded(fs, rank, source, path));
  }
}
