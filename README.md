# Combined-shader preprocessor, modelled in Dafny

This project models the combined-shader preprocessor of the autograph graphics
library, `autograph/src/gfx/glsl/preprocessor.rs`. The preprocessor reads one
GLSL source that holds the code of several pipeline stages and works line by line:

- It expands `#include "file"` lines recursively, relative to the including file's directory.
- It records every file it enters in a source map.
- It writes a `#line N F` directive before the first copied line after an include or version line.
- It reads the `#version` line and the custom pragmas `stages(...)`, `input_layout(...)` and `primitive_topology(...)`.
- It copies every other line into a combined body.

The entry point then emits one variant of the body per enabled stage. Each variant is:

1. a `#version` line (330 when no line of the source or its includes is a `#version` line whose number parses);
2. one `#define` per caller macro;
3. the stage's `#define _STAGE_`;
4. `#line 0 0`;
5. the body.

The modules follow the program's structure:

- `Text` (text.dfy) holds the string primitives the source takes from Rust's standard library:
  - `str::lines`;
  - Unicode `\s` trimming;
  - decimal formatting;
  - `parse::<i32>` and `parse::<u32>` on digit strings;
  - the `u32 as i32` cast.
- `Pipeline` (pipeline.dfy) holds the stage, component-type, topology and vertex-attribute vocabulary.
- `Directives` (directives.dfy) holds:
  - the three line recognisers (`#include`, `#version`, `#pragma`), as the classification `Classify`;
  - the three pragma payload grammars;
  - the fixed stage, format and topology tables.
- `InputLayout` (layout.dfy) is the strict triple decoder of `input_layout(...)`, as a function and as the `while let` loop that implements it.
- `Scanner` (scanner.dfy) describes `preprocess_shader_internal` as functions. They run over the shared accumulators (body, version, stage mask, layout, topology, source map) and the per-file cursor (`cur_line`, the pending line-directive flag, the error count).
- `ScanInvariants`, `ScanFacts` and `ScanMeta` hold what the scan is proved to keep and to compute:
  - `ScanInvariants`: the source map, the line directives and the copied lines, and the monotone accumulators.
  - `ScanFacts`: the line counter and verbatim copying.
  - `ScanMeta`: the metadata as a fold over the include-expanded line stream.
- `Preprocessor` (preprocessor.dfy) is the program as it runs. A `Context` object holds the accumulators. Its methods update them in place, loop over the lines and recurse into includes. Each method is proved to end in the state the matching `Scanner` function describes.
- `Variants` (variants.dfy) is `preprocess_combined_shader_source`: the version default, the macro header loop, the six variants and the result record.

Some behaviours of the code that the model keeps as they are:

- **Pragma lines.** A pragma line neither advances `cur_line` nor sets the pending line-directive flag. The pragma branch has no `cur_line += 1` and never touches the flag, so only include, version and ordinary lines are counted.
  - A root file made of `#version 450`, `#pragma stages(vertex, fragment)` and `void main() {}` therefore puts `#line 2 0` before `void main() {}`.
- **Empty version.** The version pattern accepts an empty digit string (`[0-9]*`). Such a line counts as a malformed version, which is one error.
- **Name-only macro.** A name-only macro `NAME` is written as `#define NAME` with no line break, so the next header line is glued onto it. `NAME=` gives `#define NAME ` followed by a line break.
- **Errors in included files.** The errors of an included file are not added to the including file's count.
- **Start of an included file.** An included file starts with the flag cleared, so its first lines get no `#line` directive of their own.

## Model

| member | source | states |
|---|---|---|
| Text.Lines | autograph/src/gfx/glsl/preprocessor.rs:60 | the lines `source.lines()` yields contain no line break |
| Text.LinesJoin | autograph/src/gfx/glsl/preprocessor.rs:60 | splitting a text without carriage returns that ends in a newline, then writing each line back with "\n", gives the text again |
| Text.ParseDecimal | autograph/src/gfx/glsl/preprocessor.rs:176-177 | every printed number within range parses back to itself |
| Text.ParseLeadingZeros | autograph/src/gfx/glsl/preprocessor.rs:99 | a number written with any run of leading zeros parses to that number when it fits the target type, and is rejected when it does not |
| Text.WrapI32 | autograph/src/gfx/glsl/preprocessor.rs:212 | the `u32 as i32` cast lands in the i32 range, is congruent to its input modulo 2^32 and keeps values up to i32::MAX |
| Text.Decimal | autograph/src/gfx/glsl/preprocessor.rs:255 | `{}` formatting of a number writes a non-empty digit string without a leading zero |
| Directives.Classify | autograph/src/gfx/glsl/preprocessor.rs:44-46 | a line without '#' is ordinary; an include path has no line break; version digits are all digits; a pragma payload starts at a non-blank character |
| Directives.IncludeLineRoundTrip | autograph/src/gfx/glsl/preprocessor.rs:44 | `#include "p"` is recognised as an include of p |
| Directives.VersionLineRoundTrip | autograph/src/gfx/glsl/preprocessor.rs:45 | the `#version N` line the header writes is recognised as a version line with the digits of N |
| Directives.EmptyVersionLine | autograph/src/gfx/glsl/preprocessor.rs:98-99 | `#version ` with no digits is still a version line, with empty digits, so it reaches the malformed-version branch |
| Directives.PragmaLineRoundTrip | autograph/src/gfx/glsl/preprocessor.rs:124-127 | a `#pragma P` line, with P starting with a non-space and free of newlines, is recognised as a pragma with payload P |
| Directives.LineMarkIsOrdinary | autograph/src/gfx/glsl/preprocessor.rs:255 | an injected `#line N F` marker is an ordinary line, never a directive |
| Directives.ParsePragma | autograph/src/gfx/glsl/preprocessor.rs:38-43 | a stages or input-layout payload yields a non-empty list of words, and a topology payload yields one word |
| Directives.ParseWordsRoundTrip | autograph/src/gfx/glsl/preprocessor.rs:39-41 | a word list written as "a, b, c)" is read back as that list |
| Directives.StagesPragmaRoundTrip | autograph/src/gfx/glsl/preprocessor.rs:39 | `stages(l)` is read as a stages command with list l |
| Directives.InputLayoutPragmaRoundTrip | autograph/src/gfx/glsl/preprocessor.rs:41 | `input_layout(l)` is read as an input-layout command with list l |
| Directives.TopologyPragmaRoundTrip | autograph/src/gfx/glsl/preprocessor.rs:43 | `primitive_topology(t)` is read as a topology command with token t |
| Directives.StageTable | autograph/src/gfx/glsl/preprocessor.rs:130-158 | the six stage names and the six stages correspond one to one, both directions |
| Directives.FormatTable | autograph/src/gfx/glsl/preprocessor.rs:188-198 | the ten format tokens and their (type, size, normalized) triples correspond one to one, and every size is 1 to 4 |
| Directives.TopologyTable | autograph/src/gfx/glsl/preprocessor.rs:234-236 | `triangle` and `line` correspond one to one to TRIANGLES and LINES |
| InputLayout.ParseInputLayout | autograph/src/gfx/glsl/preprocessor.rs:162-221 | the `while let` loop returns what `DecodeLayout` gives for the entry list |
| InputLayout.DecodeLayoutAccepted | autograph/src/gfx/glsl/preprocessor.rs:175-219 | an accepted list has three entries per attribute, and attribute k, in textual order, is what triple k decodes to |
| InputLayout.DecodeLayoutComplete | autograph/src/gfx/glsl/preprocessor.rs:175-219 | a list of whole triples that all decode is accepted |
| InputLayout.DecodeLayoutRoundTrip | autograph/src/gfx/glsl/preprocessor.rs:175-216 | writing attributes as format, slot and offset tokens and decoding them gives the attributes back |
| Scanner.ApplyPragma | autograph/src/gfx/glsl/preprocessor.rs:124-252 | a pragma never touches the body, version or source map; the mask only grows; a set layout or topology is never replaced; errors only grow |
| ScanInvariants.PushEntry | autograph/src/gfx/glsl/preprocessor.rs:49-53 | pushing an entry whose index is the old length keeps every entry's index equal to its position |
| ScanInvariants.OrdinaryWellFormed | autograph/src/gfx/glsl/preprocessor.rs:253-261 | copying an ordinary line keeps every line directive valid and followed by a copied line, and every copied line ordinary |
| ScanInvariants.PragmaWellFormed | autograph/src/gfx/glsl/preprocessor.rs:124-252 | a pragma keeps the accumulators well formed and only extends them |
| ScanInvariants.VersionWellFormed | autograph/src/gfx/glsl/preprocessor.rs:98-123 | a version line keeps the accumulators well formed and only extends them |
| ScanInvariants.ScanFileWellFormed | autograph/src/gfx/glsl/preprocessor.rs:27-265 | a whole file, includes and all, keeps the source map indexed by position, every `#line N F` with F in the map and followed by a copied line, and only ordinary lines in the body; the body and map are only appended to, the mask only grows, layout and topology are set at most once; the file's own entry sits at the old map length with its path |
| ScanFacts.StepCursor | autograph/src/gfx/glsl/preprocessor.rs:61-261 | every line but a pragma advances `cur_line`; include and version set the pending flag, a copied line clears it, a pragma leaves it; a found include adds none of the included file's errors, a missing one adds one; a version line adds one error when its digits do not parse as an i32 and none when they do |
| ScanFacts.ScanLinesCursor | autograph/src/gfx/glsl/preprocessor.rs:56-60 | `cur_line` ends at its start plus the number of non-pragma lines, and the error count never decreases |
| ScanFacts.RenderCodes | autograph/src/gfx/glsl/preprocessor.rs:258-259 | copied lines appear in the body each followed by "\n" |
| ScanFacts.PlainLines | autograph/src/gfx/glsl/preprocessor.rs:253-261 | ordinary lines with no pending directive are copied one by one and change nothing else |
| ScanFacts.PlainSource | autograph/src/gfx/glsl/preprocessor.rs:49-261 | a file without directives and without carriage returns, empty or ending in a newline, reaches the body verbatim, adds only its source-map entry and reports no error |
| ScanFacts.StagesInNames | autograph/src/gfx/glsl/preprocessor.rs:129-148 | a stage is ORed in exactly when its name is among the tags |
| ScanFacts.UnknownStagesCount | autograph/src/gfx/glsl/preprocessor.rs:149-157 | unknown tags cost one error each without stopping the list: at most one error per tag, none exactly when all tags are known |
| ScanFacts.PragmaLayout | autograph/src/gfx/glsl/preprocessor.rs:160-221 | the layout slot changes exactly on an input-layout pragma into an empty slot whose entries decode, and then holds the decoded attributes; a duplicate or undecodable list costs one error and an accepted one none |
| ScanFacts.PragmaTopology | autograph/src/gfx/glsl/preprocessor.rs:222-245 | the topology slot changes exactly on a topology pragma into an empty slot with a known token, and then holds its topology; a duplicate or unknown token costs one error and an accepted one none |
| ScanFacts.PragmaStagesOrMalformed | autograph/src/gfx/glsl/preprocessor.rs:124-252 | after a pragma a stage is enabled exactly when it was before or the pragma is a stages list naming it; a stages list costs at most one error per tag, and none exactly when every tag is a stage name; a malformed pragma changes nothing and costs one error |
| ScanFacts.OrdinaryText | autograph/src/gfx/glsl/preprocessor.rs:253-261 | an ordinary line adds to the body text exactly the pending `#line cur_line file` line (if any) and then the line with "\n"; nothing else changes, the flag is cleared and the line counter advances |
| ScanFacts.VersionReread | autograph/src/gfx/glsl/preprocessor.rs:98-123 | the `#version N` line the header writes, scanned again, is a version line that sets the version to N with no error, for every N that fits an i32 |
| ScanMeta.ScanLinesMeta | autograph/src/gfx/glsl/preprocessor.rs:60-262 | scanning lines, with includes recursed into, ends with the metadata of a fold over the include-expanded lines |
| ScanMeta.ScanStepMeta | autograph/src/gfx/glsl/preprocessor.rs:61-96 | an include line affects the metadata as the included file's expanded lines do; a missing include affects nothing |
| ScanMeta.RunMeta | autograph/src/gfx/glsl/preprocessor.rs:299-308 | the root scan ends with the metadata of the fold over its expanded stream |
| ScanMeta.MetaStepValues | autograph/src/gfx/glsl/preprocessor.rs:98-245 | one line sets a parsable version, adds its named stages, and fills an empty layout or topology slot with a valid value |
| ScanMeta.MetaFoldValues | autograph/src/gfx/glsl/preprocessor.rs:98-245 | over a stream, the last parsable version wins, the mask is the union of all stage lists, and layout and topology keep the first valid value |
| ScanMeta.FirstLayoutSnoc | autograph/src/gfx/glsl/preprocessor.rs:166-173 | a later layout line matters only when no earlier one was valid |
| ScanMeta.FirstTopologySnoc | autograph/src/gfx/glsl/preprocessor.rs:225-232 | a later topology line matters only when no earlier one was valid |
| ScanMeta.LastVersionNone | autograph/src/gfx/glsl/preprocessor.rs:98-113 | the version stays empty exactly when no line is a `#version` line whose number parses |
| ScanMeta.LastVersionWins | autograph/src/gfx/glsl/preprocessor.rs:98-113 | a version that is set comes from a `#version` line after which no other parsable `#version` line follows |
| ScanMeta.RunValues | autograph/src/gfx/glsl/preprocessor.rs:98-245 | across included files: the run's version is the last parsable `#version` of the expanded stream, its mask the union of every stage list, its layout and topology the first valid ones |
| Preprocessor.Context.constructor | autograph/src/gfx/glsl/preprocessor.rs:293-298 | the accumulators start empty |
| Preprocessor.Context.AddStages | autograph/src/gfx/glsl/preprocessor.rs:129-159 | the `for stage in stages` loop ORs in every known tag, counts every unknown one and touches nothing else |
| Preprocessor.Context.PragmaLine | autograph/src/gfx/glsl/preprocessor.rs:124-252 | the pragma branch leaves the context and error count that `ApplyPragma` describes |
| Preprocessor.Context.VersionLine | autograph/src/gfx/glsl/preprocessor.rs:98-123 | the version branch, with its nested `if` on the previous version, leaves the context and cursor that `ApplyVersion` describes |
| Preprocessor.Context.OrdinaryLine | autograph/src/gfx/glsl/preprocessor.rs:253-261 | the default branch appends the same text to the body as `ApplyOrdinary` does to the chunks, keeping body and chunks in step |
| Preprocessor.Context.ProcessFile | autograph/src/gfx/glsl/preprocessor.rs:27-265 | the loop over the lines, recursing into includes, leaves the context and returns the error count that `ScanFile` describes |
| Variants.ParseMacro | autograph/src/gfx/glsl/preprocessor.rs:286 | an accepted macro has a word name and a word-character value |
| Variants.MacroRoundTrip | autograph/src/gfx/glsl/preprocessor.rs:286 | the macro pattern accepts exactly the spellings `NAME` and `NAME=VALUE` and reads them back, both directions |
| Variants.MacroLineEnds | autograph/src/gfx/glsl/preprocessor.rs:330-336 | a macro's header line ends its line exactly when the macro has a value |
| Variants.HeaderStart | autograph/src/gfx/glsl/preprocessor.rs:326-327 | the header opens with the `#version` line |
| Variants.BuildHeader | autograph/src/gfx/glsl/preprocessor.rs:326-341 | the `for m in macros` loop builds the version line followed by each macro's line in caller order |
| Variants.StageToken | autograph/src/gfx/glsl/preprocessor.rs:345-352 | each stage define is a non-empty single-line token |
| Variants.Variant | autograph/src/gfx/glsl/preprocessor.rs:343-362 | a stage's variant exists exactly when the stage is in the mask; it is longer than header and body together, opens with the whole header and closes with the whole body |
| Variants.VariantsPresent | autograph/src/gfx/glsl/preprocessor.rs:364-376 | a slot is filled exactly when its stage is enabled, so there are as many variants as stages in the mask |
| Variants.VariantsDiffer | autograph/src/gfx/glsl/preprocessor.rs:354-357 | two enabled variants share the header and body and differ only in the stage token; distinct stages give distinct texts |
| Variants.PreprocessCombined | autograph/src/gfx/glsl/preprocessor.rs:279-377 | the entry point returns the mask and the record the scan, the version default, the header and the six variants describe |
| Variants.RunWellFormed | autograph/src/gfx/glsl/preprocessor.rs:293-308 | after a run the source map starts with the root path, is indexed by position, and every line directive names a file in it |
| Variants.RunVersionNone | autograph/src/gfx/glsl/preprocessor.rs:98-123 | a run ends with no version exactly when no line of the include-expanded input is a `#version` line whose number parses |
| Variants.DefaultVersion | autograph/src/gfx/glsl/preprocessor.rs:312-318 | when no line of the include-expanded input is a `#version` line whose number parses, every variant opens with `#version 330\n` |
| Variants.PlainCombined | autograph/src/gfx/glsl/preprocessor.rs:279-377 | a root file without directives and without carriage returns, empty or ending in a newline, gives an empty mask, no layout, no topology, no variant, and a body equal to the file |

## Left out

- Logging: `error!`, `warn!` and `debug!` are not modelled. The root file's error count is returned by `ProcessFile` and dropped by `PreprocessCombined`, as in the source.
- File I/O:
  - The file system is a map from path to contents, and a path missing from the map is a failed `File::open`.
  - A `read_to_string` failure after a successful open is not modelled. The source ignores it and scans whatever text was read.
- Paths: `Path::parent` and `PathBuf::push` are uninterpreted functions of the file system.
  - `parent().unwrap()` panics on a path without a parent. The model therefore requires that the root and every included existing file have a parent.
- Malformed macros: `panic!` on a malformed macro is not modelled. `PreprocessCombined`, `Combined` and `Header` require every macro to match the macro pattern.
- Include cycles: the source has no cycle detection and would recurse without end. The model requires a rank on paths under which every include of an existing file goes down (`WellRanked`).
- The `IncludeFile` breadcrumb: its parent link serves only diagnostics, so it is not modelled.
- Regex matching: the patterns are recognised by hand-written functions and `lazy_static` is not modelled.
  - `\s` is Unicode White_Space.
  - `\w` is modelled as ASCII letters, digits and '_'; the non-ASCII word characters Rust's `\w` also accepts are not.
  - `parse::<i32>` and `parse::<u32>` also accept a leading '+'. This cannot arise, because every text parsed here is made of `[0-9]` or `\w` characters.
- Integer widths:
  - `cur_line` (i32) and the `source_map.len() as i32` index are unbounded naturals. Their overflow past 2^31 - 1 lines or files is not modelled.
  - The `u32 as i32` offset cast is modelled (`WrapI32`).
- GL enumerants: `gl::FLOAT`, `gl::TRIANGLES` and the rest are datatype constructors, not their numeric values. `PipelineStages` bit flags are a set of stages.
- The `_include_paths` parameter is accepted and not used, as in the source.
