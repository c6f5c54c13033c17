/** The scanner as the program runs it: one context object holds the
    accumulators that every level of the include recursion appends to and
    overwrites in place. Each method is proved to leave the context in the
    state the matching function of `Scanner` describes. */
module Preprocessor {
  import opened Wrappers
  import opened Text
  import opened Pipeline
  import opened Directives
  import opened InputLayout
  import opened Scanner
  import opened ScanFacts

  /** The accumulators of one preprocessing run: the combined body, the
      version slot, the stage mask, the input-layout and topology slots and
      the source map. */
  class Context {
    var body: string
    ghost var chunks: seq<Chunk>
    var version: Option<nat>
    var stages: set<Stage>
    var layout: Option<seq<VertexAttribute>>
    var topology: Option<Topology>
    var sourceMap: seq<SourceMapEntry>

    /** The body is the text of the chunks it was built from. */
    ghost predicate Valid()
      reads this
    {
      body == Render(chunks)
    }

    /** The accumulators as a value. */
    ghost function Model(): (r: Acc)
      reads this
    {
      Acc(chunks, version, stages, layout, topology, sourceMap)
    }

    /** Everything empty: no body, no version, no stage, no layout, no
        topology, no source-map entry. */
    constructor ()
      ensures Valid() && Model() == EmptyAcc && body == []
    {
      body := [];
      chunks := [];
      version := None;
      stages := {};
      layout := None;
      topology := None;
      sourceMap := [];
    }

    /** A `stages(...)` list: each known tag ORs in its stage, each unknown
        one is counted and the rest of the list still applies. */
    method AddStages(tags: seq<string>) returns (unknown: nat)
      modifies this
      ensures stages == old(stages) + StagesIn(tags)
      ensures unknown == UnknownStages(tags)
      ensures body == old(body) && chunks == old(chunks) && version == old(version)
      ensures layout == old(layout) && topology == old(topology) && sourceMap == old(sourceMap)
    {
      unknown := 0;
      for i := 0 to |tags|
        invariant stages == old(stages) + StagesIn(tags[..i])
        invariant unknown == UnknownStages(tags[..i])
        invariant body == old(body) && chunks == old(chunks) && version == old(version)
        invariant layout == old(layout) && topology == old(topology) && sourceMap == old(sourceMap)
      {
        assert tags[..i + 1][..i] == tags[..i];
        match StageOf(tags[i]) {
          case Some(s) => stages := stages + {s};
          case None => unknown := unknown + 1;
        }
      }
      assert tags[..|tags|] == tags;
    }

    /** A `#pragma` line. */
    method PragmaLine(payload: string, errors: nat) returns (errorsOut: nat)
      requires Valid()
      modifies this
      ensures Valid()
      ensures (Model(), errorsOut) == ApplyPragma(old(Model()), errors, payload)
    {
      errorsOut := errors;
      match ParsePragma(payload) {
        case StagesCmd(tags) =>
          var unknown := AddStages(tags);
          errorsOut := errorsOut + unknown;
        case InputLayoutCmd(entries) =>
          if layout.Some? {
            errorsOut := errorsOut + 1;
          } else {
            var decoded := ParseInputLayout(entries);
            if decoded.None? {
              errorsOut := errorsOut + 1;
            } else {
              layout := decoded;
            }
          }
        case TopologyCmd(token) =>
          if topology.Some? {
            errorsOut := errorsOut + 1;
          } else {
            match TopologyOf(token) {
              case Some(t) => topology := Some(t);
              case None => errorsOut := errorsOut + 1;
            }
          }
        case Unrecognised =>
          errorsOut := errorsOut + 1;
      }
    }

    /** A `#version` line: a number that parses replaces the version slot
        (only when it differs from a version already seen, which leaves the
        same value), anything else is one error. */
    method VersionLine(digits: string, cur: Cursor) returns (next: Cursor)
      requires Valid()
      modifies this
      ensures Valid()
      ensures (Model(), next) == ApplyVersion(old(Model()), cur, digits)
    {
      match ParseNumber(digits, I32_MAX) {
        case Some(v) =>
          if version.Some? {
            if version.value != v {
              version := Some(v);
            }
          } else {
            version := Some(v);
          }
          next := Cursor(cur.line + 1, true, cur.errors);
        case None =>
          next := Cursor(cur.line + 1, true, cur.errors + 1);
      }
    }

    /** An ordinary line: the pending `#line` directive, then the line and
        a "\n". */
    method OrdinaryLine(text: string, fileIndex: nat, cur: Cursor) returns (next: Cursor)
      requires Valid()
      modifies this
      ensures Valid()
      ensures (Model(), next) == ApplyOrdinary(old(Model()), cur, text, fileIndex)
    {
      assert chunks + [] == chunks;
      if cur.pending {
        var mark := LineMark(cur.line, fileIndex);
        RenderSnoc(chunks, mark);
        body := body + ("#line " + Decimal(cur.line) + " " + Decimal(fileIndex) + "\n");
        chunks := chunks + [mark];
      }
      RenderSnoc(chunks, Code(text));
      body := body + (text + "\n");
      chunks := chunks + [Code(text)];
      next := Cursor(cur.line + 1, false, cur.errors);
    }

    /** One file: pushes its source-map entry, then walks its lines, recursing
        into every include that names an existing file. Returns the file's own
        error count. */
    method ProcessFile(fs: FileSystem, source: string, path: Path, ghost rank: Path -> nat, ghost bound: nat)
      returns (errors: nat)
      requires Valid()
      requires fs.parent(path).Some?
      requires LinesBelow(fs, rank, Lines(source), fs.parent(path).value, bound)
      requires WellRanked(fs, rank)
      modifies this
      ensures Valid()
      ensures (Model(), errors) == ScanFile(fs, rank, source, path, bound, old(Model()))
      decreases bound
    {
      var fileIndex := |sourceMap|;
      sourceMap := sourceMap + [SourceMapEntry(fileIndex, Some(path))];
      var dir := fs.parent(path).value;
      var lines := Lines(source);
      ghost var start := Model();
      var cur := StartCursor;
      var i := 0;
      assert lines[i..] == lines;
      while i < |lines|
        invariant 0 <= i <= |lines|
        invariant Valid()
        invariant LinesBelow(fs, rank, lines[i..], dir, bound)
        invariant ScanLines(fs, rank, lines, dir, fileIndex, bound, start, StartCursor) ==
                  ScanLines(fs, rank, lines[i..], dir, fileIndex, bound, Model(), cur)
        decreases |lines| - i
      {
        var text := lines[i];
        LinesBelowTail(fs, rank, lines[i..], dir, bound);
        assert lines[i..][0] == text && lines[i..][1..] == lines[i + 1..];
        ghost var before := Model();
        ghost var step := ScanStep(fs, rank, text, dir, fileIndex, bound, before, cur);
        ghost var goal := ScanLines(fs, rank, lines[i + 1..], dir, fileIndex, bound, step.0, step.1);
        assert ScanLines(fs, rank, lines[i..], dir, fileIndex, bound, before, cur) == goal;
        match Classify(text) {
          case Include(target) =>
            var inc := fs.join(dir, target);
            if inc in fs.files {
              var ignored := ProcessFile(fs, fs.files[inc], inc, rank, rank(inc));
              cur := Cursor(cur.line + 1, true, cur.errors);
            } else {
              cur := Cursor(cur.line + 1, true, cur.errors + 1);
            }
          case Version(digits) =>
            cur := VersionLine(digits, cur);
          case Pragma(payload) =>
            var e := PragmaLine(payload, cur.errors);
            cur := cur.(errors := e);
          case Ordinary =>
            cur := OrdinaryLine(text, fileIndex, cur);
        }
        assert (Model(), cur) == step;
        assert ScanLines(fs, rank, lines[i + 1..], dir, fileIndex, bound, Model(), cur) == goal;
        i := i + 1;
      }
      errors := cur.errors;
    }
  }
}
