/** What the scanner keeps true: the source map stays indexed by position,
    every injected line directive names a file already in the source map and
    is followed by a copied line, only ordinary lines reach the body, the
    accumulators only grow, and the line counter counts every line but
    pragmas. */
module ScanInvariants {
  import opened Wrappers
  import opened Text
  import opened Pipeline
  import opened Directives
  import opened Scanner

  /** Entry i of the source map records index i. */
  predicate SourceMapIndexed(sm: seq<SourceMapEntry>)
  {
    forall i :: 0 <= i < |sm| ==> sm[i].index == i
  }

  /** Every line directive names one of the first n files and is followed by
      a copied line. */
  predicate MarksValid(cs: seq<Chunk>, n: nat)
  {
    forall i :: 0 <= i < |cs| && cs[i].LineMark? ==> cs[i].file < n && i + 1 < |cs| && cs[i + 1].Code?
  }

  /** Every copied line is an ordinary line, without a line break. */
  predicate CodeOrdinary(cs: seq<Chunk>)
  {
    forall i :: 0 <= i < |cs| && cs[i].Code? ==> Classify(cs[i].text).Ordinary? && NoNewline(cs[i].text)
  }

  predicate WellFormed(acc: Acc)
  {
    SourceMapIndexed(acc.sourceMap) && MarksValid(acc.chunks, |acc.sourceMap|) && CodeOrdinary(acc.chunks)
  }

  /** b is a later state of a: the body and the source map were only
      appended to, the stage mask only grew, a set layout or topology stayed
      as it was and a set version stayed set. */
  predicate Extends(a: Acc, b: Acc)
  {
    |a.chunks| <= |b.chunks| && b.chunks[..|a.chunks|] == a.chunks &&
    |a.sourceMap| <= |b.sourceMap| && b.sourceMap[..|a.sourceMap|] == a.sourceMap &&
    a.stages <= b.stages &&
    (a.layout.Some? ==> b.layout == a.layout) &&
    (a.topology.Some? ==> b.topology == a.topology) &&
    (a.version.Some? ==> b.version.Some?)
  }

  lemma ExtendsTrans(a: Acc, b: Acc, c: Acc)
    requires Extends(a, b) && Extends(b, c)
    ensures Extends(a, c)
  {
    assert c.chunks[..|a.chunks|] == c.chunks[..|b.chunks|][..|a.chunks|];
    assert c.sourceMap[..|a.sourceMap|] == c.sourceMap[..|b.sourceMap|][..|a.sourceMap|];
  }

  /** The empty accumulators are well formed. */
  lemma EmptyWellFormed()
    ensures WellFormed(EmptyAcc)
  {
  }

  lemma MarksValidWider(cs: seq<Chunk>, n: nat, m: nat)
    requires MarksValid(cs, n) && n <= m
    ensures MarksValid(cs, m)
  {
  }

  /** Pushing the entry for a new file keeps the source map indexed. */
  lemma PushEntry(acc: Acc, path: Path)
    requires WellFormed(acc)
    ensures WellFormed(acc.(sourceMap := acc.sourceMap + [SourceMapEntry(|acc.sourceMap|, Some(path))]))
    ensures Extends(acc, acc.(sourceMap := acc.sourceMap + [SourceMapEntry(|acc.sourceMap|, Some(path))]))
  {
    var sm := acc.sourceMap + [SourceMapEntry(|acc.sourceMap|, Some(path))];
    assert sm[..|acc.sourceMap|] == acc.sourceMap;
    MarksValidWider(acc.chunks, |acc.sourceMap|, |sm|);
  }

  /** Copying an ordinary line, after the pending line directive if any,
      keeps the accumulators well formed. */
  lemma {:induction false} OrdinaryWellFormed(acc: Acc, cur: Cursor, line: string, fileIndex: nat)
    requires WellFormed(acc) && fileIndex < |acc.sourceMap|
    requires Classify(line).Ordinary? && NoNewline(line)
    ensures WellFormed(ApplyOrdinary(acc, cur, line, fileIndex).0)
    ensures Extends(acc, ApplyOrdinary(acc, cur, line, fileIndex).0)
  {
    var cs := acc.chunks;
    var marks := if cur.pending then [LineMark(cur.line, fileIndex)] else [];
    var ds := cs + marks + [Code(line)];
    assert ApplyOrdinary(acc, cur, line, fileIndex).0.chunks == ds;
    forall i | 0 <= i < |ds| && ds[i].LineMark?
      ensures ds[i].file < |acc.sourceMap| && i + 1 < |ds| && ds[i + 1].Code?
    {
      if i < |cs| {
        assert ds[i] == cs[i];
        assert i + 1 < |cs|;
        assert ds[i + 1] == cs[i + 1];
      }
    }
    forall i | 0 <= i < |ds| && ds[i].Code?
      ensures Classify(ds[i].text).Ordinary? && NoNewline(ds[i].text)
    {
      if i < |cs| { assert ds[i] == cs[i]; }
    }
    assert ds[..|cs|] == cs;
  }

  /** A pragma keeps the accumulators well formed. */
  lemma PragmaWellFormed(acc: Acc, errors: nat, payload: string)
    requires WellFormed(acc)
    ensures WellFormed(ApplyPragma(acc, errors, payload).0)
    ensures Extends(acc, ApplyPragma(acc, errors, payload).0)
  {
    assert acc.chunks[..|acc.chunks|] == acc.chunks;
    assert acc.sourceMap[..|acc.sourceMap|] == acc.sourceMap;
  }

  /** A version line keeps the accumulators well formed. */
  lemma VersionWellFormed(acc: Acc, cur: Cursor, digits: string)
    requires WellFormed(acc)
    ensures WellFormed(ApplyVersion(acc, cur, digits).0)
    ensures Extends(acc, ApplyVersion(acc, cur, digits).0)
  {
    assert acc.chunks[..|acc.chunks|] == acc.chunks;
    assert acc.sourceMap[..|acc.sourceMap|] == acc.sourceMap;
  }

  /** Scanning a file keeps the accumulators well formed and only extends
      them; the file's own source-map entry sits at the old length of the
      map and records the file's path. */
  lemma {:induction false} ScanFileWellFormed(fs: FileSystem, rank: Path -> nat, source: string, path: Path, bound: nat, acc: Acc)
    requires fs.parent(path).Some?
    requires LinesBelow(fs, rank, Lines(source), fs.parent(path).value, bound)
    requires WellRanked(fs, rank)
    requires WellFormed(acc)
    ensures WellFormed(ScanFile(fs, rank, source, path, bound, acc).0)
    ensures Extends(acc, ScanFile(fs, rank, source, path, bound, acc).0)
    ensures |acc.sourceMap| < |ScanFile(fs, rank, source, path, bound, acc).0.sourceMap|
    ensures ScanFile(fs, rank, source, path, bound, acc).0.sourceMap[|acc.sourceMap|] == SourceMapEntry(|acc.sourceMap|, Some(path))
    decreases bound, 1, 0
  {
    var fileIndex := |acc.sourceMap|;
    var start := acc.(sourceMap := acc.sourceMap + [SourceMapEntry(fileIndex, Some(path))]);
    PushEntry(acc, path);
    var lines := Lines(source);
    ScanLinesWellFormed(fs, rank, lines, fs.parent(path).value, fileIndex, bound, start, StartCursor);
    var r := ScanLines(fs, rank, lines, fs.parent(path).value, fileIndex, bound, start, StartCursor).0;
    ExtendsTrans(acc, start, r);
    assert r.sourceMap[..|start.sourceMap|][fileIndex] == start.sourceMap[fileIndex];
  }

  lemma {:induction false} ScanLinesWellFormed(fs: FileSystem, rank: Path -> nat, lines: seq<string>, dir: Path, fileIndex: nat,
                                               bound: nat, acc: Acc, cur: Cursor)
    requires LinesBelow(fs, rank, lines, dir, bound)
    requires WellRanked(fs, rank)
    requires forall i :: 0 <= i < |lines| ==> NoNewline(lines[i])
    requires WellFormed(acc) && fileIndex < |acc.sourceMap|
    ensures WellFormed(ScanLines(fs, rank, lines, dir, fileIndex, bound, acc, cur).0)
    ensures Extends(acc, ScanLines(fs, rank, lines, dir, fileIndex, bound, acc, cur).0)
    decreases bound, 0, |lines|
  {
    if lines == [] {
      assert acc.chunks[..|acc.chunks|] == acc.chunks;
      assert acc.sourceMap[..|acc.sourceMap|] == acc.sourceMap;
    } else {
      assert IncludeBelow(fs, rank, lines[0], dir, bound);
      ScanStepWellFormed(fs, rank, lines[0], dir, fileIndex, bound, acc, cur);
      var (a, c) := ScanStep(fs, rank, lines[0], dir, fileIndex, bound, acc, cur);
      assert LinesBelow(fs, rank, lines[1..], dir, bound) by {
        forall i | 0 <= i < |lines[1..]| ensures IncludeBelow(fs, rank, lines[1..][i], dir, bound) {
          assert lines[1..][i] == lines[i + 1];
        }
      }
      forall i | 0 <= i < |lines[1..]| ensures NoNewline(lines[1..][i]) {
        assert lines[1..][i] == lines[i + 1];
      }
      ScanLinesWellFormed(fs, rank, lines[1..], dir, fileIndex, bound, a, c);
      ExtendsTrans(acc, a, ScanLines(fs, rank, lines[1..], dir, fileIndex, bound, a, c).0);
    }
  }

  lemma {:induction false} ScanStepWellFormed(fs: FileSystem, rank: Path -> nat, line: string, dir: Path, fileIndex: nat,
                                              bound: nat, acc: Acc, cur: Cursor)
    requires IncludeBelow(fs, rank, line, dir, bound)
    requires WellRanked(fs, rank)
    requires NoNewline(line)
    requires WellFormed(acc) && fileIndex < |acc.sourceMap|
    ensures WellFormed(ScanStep(fs, rank, line, dir, fileIndex, bound, acc, cur).0)
    ensures Extends(acc, ScanStep(fs, rank, line, dir, fileIndex, bound, acc, cur).0)
    decreases bound, 0, 0
  {
    match Classify(line)
    case Include(target) =>
      var inc := IncludePath(fs, dir, line);
      if inc in fs.files {
        ScanFileWellFormed(fs, rank, fs.files[inc], inc, rank(inc), acc);
      } else {
        assert acc.chunks[..|acc.chunks|] == acc.chunks;
        assert acc.sourceMap[..|acc.sourceMap|] == acc.sourceMap;
      }
    case Version(digits) => VersionWellFormed(acc, cur, digits);
    case Pragma(payload) => PragmaWellFormed(acc, cur.errors, payload);
    case Ordinary => OrdinaryWellFormed(acc, cur, line, fileIndex);
  }
}
