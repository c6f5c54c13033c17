/** Facts about one scan: how the per-file cursor moves, and that a file
    without directives is copied into the body unchanged. */
module ScanFacts {
  import opened Wrappers
  import opened Text
  import opened Pipeline
  import opened Directives
  import opened InputLayout
  import opened Scanner

  /** How many of the lines are not pragmas. */
  function NonPragmaCount(lines: seq<string>): (n: nat)
    ensures n <= |lines|
  {
    if lines == [] then 0
    else (if Classify(lines[0]).Pragma? then 0 else 1) + NonPragmaCount(lines[1..])
  }

  /** One line moves the cursor as follows: every line but a pragma advances
      the line counter; an include or a version asks for a line directive, a
      copied line clears the request and a pragma leaves it; an include of an
      existing file adds none of that file's errors, and one of a missing file
      adds one; a version line costs one error exactly when its digits do not
      parse as an i32. */
  lemma StepCursor(fs: FileSystem, rank: Path -> nat, line: string, dir: Path, fileIndex: nat,
                   bound: nat, acc: Acc, cur: Cursor)
    requires IncludeBelow(fs, rank, line, dir, bound)
    requires WellRanked(fs, rank)
    ensures ScanStep(fs, rank, line, dir, fileIndex, bound, acc, cur).1.line ==
      cur.line + (if Classify(line).Pragma? then 0 else 1)
    ensures ScanStep(fs, rank, line, dir, fileIndex, bound, acc, cur).1.pending ==
      (if Classify(line).Ordinary? then false else if Classify(line).Pragma? then cur.pending else true)
    ensures cur.errors <= ScanStep(fs, rank, line, dir, fileIndex, bound, acc, cur).1.errors
    ensures Classify(line).Include? ==>
      ScanStep(fs, rank, line, dir, fileIndex, bound, acc, cur).1.errors ==
        if IncludePath(fs, dir, line) in fs.files then cur.errors else cur.errors + 1
    ensures Classify(line).Version? ==>
      ScanStep(fs, rank, line, dir, fileIndex, bound, acc, cur).1.errors ==
        if ParseNumber(Classify(line).digits, I32_MAX).None? then cur.errors + 1 else cur.errors
  {
  }

  lemma LinesBelowTail(fs: FileSystem, rank: Path -> nat, lines: seq<string>, dir: Path, bound: nat)
    requires lines != [] && LinesBelow(fs, rank, lines, dir, bound)
    ensures IncludeBelow(fs, rank, lines[0], dir, bound)
    ensures LinesBelow(fs, rank, lines[1..], dir, bound)
  {
    forall i | 0 <= i < |lines[1..]| ensures IncludeBelow(fs, rank, lines[1..][i], dir, bound) {
      assert lines[1..][i] == lines[i + 1];
    }
  }

  /** `cur_line` ends one past the start plus the number of lines that are
      not pragmas, and the error count never goes down. */
  lemma {:induction false} ScanLinesCursor(fs: FileSystem, rank: Path -> nat, lines: seq<string>, dir: Path, fileIndex: nat,
                                           bound: nat, acc: Acc, cur: Cursor)
    requires LinesBelow(fs, rank, lines, dir, bound)
    requires WellRanked(fs, rank)
    ensures ScanLines(fs, rank, lines, dir, fileIndex, bound, acc, cur).1.line == cur.line + NonPragmaCount(lines)
    ensures cur.errors <= ScanLines(fs, rank, lines, dir, fileIndex, bound, acc, cur).1.errors
    decreases |lines|
  {
    if lines != [] {
      LinesBelowTail(fs, rank, lines, dir, bound);
      StepCursor(fs, rank, lines[0], dir, fileIndex, bound, acc, cur);
      var (a, c) := ScanStep(fs, rank, lines[0], dir, fileIndex, bound, acc, cur);
      ScanLinesCursor(fs, rank, lines[1..], dir, fileIndex, bound, a, c);
    }
  }

  /** The chunks that copy the lines. */
  function Codes(lines: seq<string>): (cs: seq<Chunk>)
    ensures |cs| == |lines|
  {
    if lines == [] then [] else [Code(lines[0])] + Codes(lines[1..])
  }

  /** The body of two runs of chunks is the two bodies one after the other. */
  lemma {:induction false} RenderAppend(cs: seq<Chunk>, ds: seq<Chunk>)
    ensures Render(cs + ds) == Render(cs) + Render(ds)
    decreases |ds|
  {
    if ds == [] {
      assert cs + ds == cs;
    } else {
      var init := ds[..|ds| - 1];
      var c := ds[|ds| - 1];
      assert cs + ds == (cs + init) + [c];
      assert ds == init + [c];
      RenderSnoc(cs + init, c);
      RenderSnoc(init, c);
      RenderAppend(cs, init);
      Associative(Render(cs), Render(init), ChunkText(c));
    }
  }

  lemma RenderSnoc(cs: seq<Chunk>, c: Chunk)
    ensures Render(cs + [c]) == Render(cs) + ChunkText(c)
  {
    assert (cs + [c])[..|cs|] == cs;
  }

  /** Kept as its own lemma so that the proofs using it stay small. */
  lemma Associative<T>(a: seq<T>, b: seq<T>, c: seq<T>)
    ensures (a + b) + c == a + (b + c)
  {
  }

  /** Copied lines render as the lines, each followed by "\n". */
  lemma {:induction false} RenderCodes(lines: seq<string>)
    ensures Render(Codes(lines)) == JoinLines(lines)
    decreases |lines|
  {
    if lines != [] {
      RenderAppend([Code(lines[0])], Codes(lines[1..]));
      RenderCodes(lines[1..]);
      assert Render([Code(lines[0])]) == Render([]) + ChunkText(Code(lines[0]));
    }
  }

  predicate NoDirectives(lines: seq<string>)
  {
    forall i :: 0 <= i < |lines| ==> Classify(lines[i]).Ordinary?
  }

  /** Lines that are all ordinary are copied one by one, without any line
      directive when none is pending, and touch nothing else. */
  lemma {:induction false} PlainLines(fs: FileSystem, rank: Path -> nat, lines: seq<string>, dir: Path, fileIndex: nat,
                                      bound: nat, acc: Acc, cur: Cursor)
    requires LinesBelow(fs, rank, lines, dir, bound)
    requires WellRanked(fs, rank)
    requires NoDirectives(lines) && !cur.pending
    ensures ScanLines(fs, rank, lines, dir, fileIndex, bound, acc, cur) ==
      (acc.(chunks := acc.chunks + Codes(lines)), Cursor(cur.line + |lines|, false, cur.errors))
    decreases |lines|
  {
    if lines == [] {
      assert acc.chunks + [] == acc.chunks;
    } else {
      LinesBelowTail(fs, rank, lines, dir, bound);
      PlainStep(fs, rank, lines[0], dir, fileIndex, bound, acc, cur);
      var a := acc.(chunks := acc.chunks + [Code(lines[0])]);
      var c := Cursor(cur.line + 1, false, cur.errors);
      assert NoDirectives(lines[1..]) by {
        forall i | 0 <= i < |lines[1..]| ensures Classify(lines[1..][i]).Ordinary? {
          assert lines[1..][i] == lines[i + 1];
        }
      }
      PlainLines(fs, rank, lines[1..], dir, fileIndex, bound, a, c);
      Associative(acc.chunks, [Code(lines[0])], Codes(lines[1..]));
    }
  }

  lemma PlainStep(fs: FileSystem, rank: Path -> nat, line: string, dir: Path, fileIndex: nat,
                  bound: nat, acc: Acc, cur: Cursor)
    requires IncludeBelow(fs, rank, line, dir, bound)
    requires WellRanked(fs, rank)
    requires Classify(line).Ordinary? && !cur.pending
    ensures ScanStep(fs, rank, line, dir, fileIndex, bound, acc, cur) ==
      (acc.(chunks := acc.chunks + [Code(line)]), Cursor(cur.line + 1, false, cur.errors))
  {
    assert acc.chunks + [] == acc.chunks;
  }

  /** A file without directives, with "\n" line ends and ending in one,
      reaches the body unchanged; only its source-map entry is added and it
      reports no error. */
  lemma PlainSource(fs: FileSystem, rank: Path -> nat, source: string, path: Path, bound: nat, acc: Acc)
    requires fs.parent(path).Some?
    requires LinesBelow(fs, rank, Lines(source), fs.parent(path).value, bound)
    requires WellRanked(fs, rank)
    requires NoDirectives(Lines(source)) && NoCarriageReturn(source)
    requires source == [] || source[|source| - 1] == '\n'
    ensures ScanFile(fs, rank, source, path, bound, acc) ==
      (acc.(chunks := acc.chunks + Codes(Lines(source)),
            sourceMap := acc.sourceMap + [SourceMapEntry(|acc.sourceMap|, Some(path))]), 0)
    ensures Render(ScanFile(fs, rank, source, path, bound, acc).0.chunks) == Render(acc.chunks) + source
  {
    var start := acc.(sourceMap := acc.sourceMap + [SourceMapEntry(|acc.sourceMap|, Some(path))]);
    PlainLines(fs, rank, Lines(source), fs.parent(path).value, |acc.sourceMap|, bound, start, StartCursor);
    RenderAppend(acc.chunks, Codes(Lines(source)));
    RenderCodes(Lines(source));
    LinesJoin(source);
  }

  /** A stage is ORed in by a `stages(...)` list exactly when its name is
      one of the tags. */
  lemma {:induction false} StagesInNames(tags: seq<string>, s: Stage)
    ensures s in StagesIn(tags) <==> StageName(s) in tags
    decreases |tags|
  {
    if tags != [] {
      var init := tags[..|tags| - 1];
      var last := tags[|tags| - 1];
      StagesInNames(init, s);
      StageTable(last, s);
      assert tags == init + [last];
      assert StageName(s) in tags <==> StageName(s) in init || StageName(s) == last;
    }
  }

  /** An unknown tag costs one error and does not stop the others: the
      error count is at most the number of tags, and zero exactly when every
      tag names a stage. */
  lemma {:induction false} UnknownStagesCount(tags: seq<string>)
    ensures UnknownStages(tags) <= |tags|
    ensures UnknownStages(tags) == 0 <==> forall i :: 0 <= i < |tags| ==> StageOf(tags[i]).Some?
    decreases |tags|
  {
    if tags != [] {
      var init := tags[..|tags| - 1];
      UnknownStagesCount(init);
      assert forall i :: 0 <= i < |init| ==> init[i] == tags[i];
    }
  }

  /** The input-layout slot changes only on an `input_layout(...)` pragma
      arriving while the slot is empty and whose entries all decode; it then
      holds the decoded attributes. A duplicate or a list that does not
      decode costs one error, and an accepted one none. */
  lemma PragmaLayout(acc: Acc, errors: nat, payload: string)
    ensures ApplyPragma(acc, errors, payload).0.layout != acc.layout <==>
      ParsePragma(payload).InputLayoutCmd? && acc.layout.None? && DecodeLayout(ParsePragma(payload).entries).Some?
    ensures ApplyPragma(acc, errors, payload).0.layout != acc.layout ==>
      ApplyPragma(acc, errors, payload).0.layout == DecodeLayout(ParsePragma(payload).entries)
    ensures ParsePragma(payload).InputLayoutCmd? ==>
      ApplyPragma(acc, errors, payload).1 ==
        if acc.layout.Some? || DecodeLayout(ParsePragma(payload).entries).None? then errors + 1 else errors
  {
  }

  /** The topology slot changes only on a `primitive_topology(...)` pragma
      arriving while the slot is empty and naming a known topology; a
      duplicate or an unknown token costs one error, an accepted one none. */
  lemma PragmaTopology(acc: Acc, errors: nat, payload: string)
    ensures ApplyPragma(acc, errors, payload).0.topology != acc.topology <==>
      ParsePragma(payload).TopologyCmd? && acc.topology.None? && TopologyOf(ParsePragma(payload).token).Some?
    ensures ApplyPragma(acc, errors, payload).0.topology != acc.topology ==>
      ApplyPragma(acc, errors, payload).0.topology == TopologyOf(ParsePragma(payload).token)
    ensures ParsePragma(payload).TopologyCmd? ==>
      ApplyPragma(acc, errors, payload).1 ==
        if acc.topology.Some? || TopologyOf(ParsePragma(payload).token).None? then errors + 1 else errors
  {
  }

  /** After a `stages(...)` pragma a stage is enabled exactly when it was
      before or its name is among the tags; the pragma costs one error per
      unknown tag, so none exactly when every tag names a stage. Any other
      pragma leaves the mask alone, and a payload of no known shape changes
      nothing and costs one error. */
  lemma PragmaStagesOrMalformed(acc: Acc, errors: nat, payload: string, s: Stage)
    ensures s in ApplyPragma(acc, errors, payload).0.stages <==>
      s in acc.stages || (ParsePragma(payload).StagesCmd? && StageName(s) in ParsePragma(payload).tags)
    ensures ParsePragma(payload).StagesCmd? ==>
      ApplyPragma(acc, errors, payload).1 <= errors + |ParsePragma(payload).tags|
    ensures ParsePragma(payload).StagesCmd? ==>
      (ApplyPragma(acc, errors, payload).1 == errors <==>
       forall i :: 0 <= i < |ParsePragma(payload).tags| ==> StageOf(ParsePragma(payload).tags[i]).Some?)
    ensures ParsePragma(payload).Unrecognised? ==> ApplyPragma(acc, errors, payload) == (acc, errors + 1)
  {
    if ParsePragma(payload).StagesCmd? {
      StagesInNames(ParsePragma(payload).tags, s);
      UnknownStagesCount(ParsePragma(payload).tags);
    }
  }

  /** An ordinary line adds to the body the pending `#line N F` directive,
      if any, and then the line with its newline; nothing else changes and
      the line counter moves on. */
  lemma OrdinaryText(acc: Acc, cur: Cursor, line: string, fileIndex: nat)
    ensures Render(ApplyOrdinary(acc, cur, line, fileIndex).0.chunks) ==
      Render(acc.chunks) + (if cur.pending then "#line " + Decimal(cur.line) + " " + Decimal(fileIndex) + "\n" else "") + line + "\n"
    ensures ApplyOrdinary(acc, cur, line, fileIndex).0 == acc.(chunks := ApplyOrdinary(acc, cur, line, fileIndex).0.chunks)
    ensures ApplyOrdinary(acc, cur, line, fileIndex).1 == Cursor(cur.line + 1, false, cur.errors)
  {
    var mark := LineMark(cur.line, fileIndex);
    if cur.pending {
      assert acc.chunks + [mark] + [Code(line)] == (acc.chunks + [mark]) + [Code(line)];
      RenderSnoc(acc.chunks + [mark], Code(line));
      RenderSnoc(acc.chunks, mark);
    } else {
      assert acc.chunks + [] + [Code(line)] == acc.chunks + [Code(line)];
      RenderSnoc(acc.chunks, Code(line));
    }
  }

  /** The `#version N` line the header writes, met again by the scanner,
      sets the version to N without an error when N fits an i32. */
  lemma VersionReread(acc: Acc, cur: Cursor, n: nat)
    requires n <= I32_MAX
    ensures Classify("#version " + Decimal(n)) == Version(Decimal(n))
    ensures ApplyVersion(acc, cur, Decimal(n)) == (acc.(version := Some(n)), Cursor(cur.line + 1, true, cur.errors))
  {
    VersionLineRoundTrip(n);
    ParseDecimal(n, I32_MAX);
  }
}
