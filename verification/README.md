# Roshera agent layer: a Dafny model

Roshera is a CAD system that people and agents drive together. The logic modelled here is its TypeScript agent layer: the
tools an agent calls, the gates in front of them, and the parts of the web app that stream answers, draw a document's
history, renew tokens and commit moves. The project proves, for all inputs, runs and interleavings, what that code
promises, and where a promise fails it gives the input and the exact condition.

`dafny verify dfyconfig.toml` checks the whole project.

- **Streaming splitter** (`StreamingMath`, `StreamingScan`, `StreamingFences`, `StreamingAppendOnly`, `StreamingSafety`,
  `StreamingSplitter`, `FenceMeaning`, `MathMeaning`). Streaming text is cut into settled chunks, a tail and a pending marker by two passes. The code's
  comment says settled chunks never change; they do change when an unfinished closing fence line gains a character other
  than a newline. `AppendOnly` is the exact condition.
- **Program runner** (`Json`, `Strings`, `Placeholders`, `CadProgram`, `ProgramLedger`,
  `PlaceholderMeaning`, `ProgramMeaning`). Programs are validated whole, run in order,
  stop at the first failure, and chain results through placeholders. Chaining means inlining.
- **Canonical JSON and FNV-1a** (`CanonicalJson`, `JsonReader`, `CanonicalIdentity`, `CanonicalBytes`,
  `CanonicalMeaning`, `Fnv`, `FnvMeaning`). The identity
  behind the refusal cache and the drift hash. The code sorts keys by UTF-16 code units, while its comment claims the text that
  Rust prints for a `BTreeMap`, in byte order; the drift hash (`roshera-mcp/src/index.ts:183`) relies on that.
  `CanonicalIsBTreeTextIff` says for exactly which values the two texts are equal, and `BTreeTextCanDiffer` gives one that fails.
- **Lineage lanes** (`LineageLanes`, `LaneInvariants`, `LaneAccounting`, `LaneConservation`, `LaneBuilder`,
  `LaneMeaning`, `Sorting`). One
  pass over a document's operations threads recycled ids into the lives of solids. `LaneBuilder` runs it on shared mutable
  lane objects.
- **Dispatch gates** (`Gates`, `GateHistory`, `PointBudget`, `PointLimits`, `GateBrackets`, `BracketHistory`,
  `InvokedPoints`, `GateMeaning`, `RecordMeaning`, `BracketMeaning`). A session state machine with a refusal cache, an open intent, a tally of unverified work and two point
  counters. Its state is shown equal to functions of the dispatch history. Both counters keep their limits in every run
  (`CountersBoundedInEveryRun`), because both point handlers mark whatever they refuse as an error; `RunBoundsCounters` is the
  exact condition for other handlers, and neither point handler of the source fails it. `GateBrackets` nests dispatches in
  `invoke` and `cad_program`: the cache, the intent, the tally and the limits still hold (`BracketsRemember`, `BracketsTold`,
  `BracketsBoundCounters`), but points invoked one by one never meet the burst limit (`InvokedPointsMakeNoBurst`).
- **Token renewal** (`Auth`, `AuthLogout`, `AuthMeaning`), **gizmo commits** (`GizmoCommit`, `GizmoMeaning`). Two asynchronous protocols, one step per stretch
  of code between awaits, with arbitrary interleavings. A logout does not hold while a refresh is on its way:
  `LogoutHoldsIff` is the exact condition.
- **One-edit test** (`OneEdit`), **event-stream framing** (`SseStream`, `SseCuts`, `SseMeaning`), **perception
  stash** (`PerceptionStash`, `PerceptionMeaning`).
  Three compact algorithms, each against an independent definition or a conservation law. A chunk that ends inside a CRLF can
  change the events it carries: `SplitMattersUnlessHarmless` says exactly when.

Objects that the source changes in place are classes here, and its loops are loops; each method is proved equal to a function on
values, and the theorems are about those functions. Functions that a model needs from outside are parameters: what tool
handlers do, which schemas accept which arguments, which checkpoint names are generic, what servers answer.

The modules named `…Meaning` say what the leaves of those functions mean in terms of the input alone: which line ends a fence,
which value a placeholder names, what clears the tally, how a lane ends, when a request is sent again.

## Model

| member | source | states |
|---|---|---|
| StreamingAppendOnly.AppendOnly | roshera-app/src/lib/streaming-math.ts:57-191 | For every text and every extension: the settled chunks of the text are a prefix of those of the extended text exactly when the extension does not lengthen an unfinished closing fence line. Through both passes. |
| StreamingAppendOnly.AppendOnlyHolds | roshera-app/src/lib/streaming-math.ts:8-11 | The append-only direction on cut positions: unless a closing fence line is lengthened, the old cut positions are a prefix of the new ones. |
| StreamingAppendOnly.BoundaryMoves | roshera-app/src/lib/streaming-math.ts:87-96 | The failing direction: when a closing fence line is lengthened, the end of the text was a cut position, and is no boundary of any kind any more. |
| StreamingAppendOnly.LoneFenceChanges | roshera-app/src/lib/streaming-math.ts:51-56 | A family of failures: a lone fence of backticks loses its settled chunk to whatever text continues its closing line. |
| StreamingAppendOnly.AppendOnlyCanFail | roshera-app/src/lib/streaming-math.ts:51-56 | A concrete failure of the documented promise: a fenced block whose closing line then gains one letter. |
| StreamingAppendOnly.LinesDoGrow | roshera-app/src/lib/streaming-math.ts:62-74 | Appending keeps every line but the last, whose fence marker can only grow, and adds lines after it. |
| StreamingAppendOnly.FencePassGrows | roshera-app/src/lib/streaming-math.ts:71-105 | The fence pass over an extended text agrees with the pass over the text on every boundary and span that is certain already. |
| StreamingScan.ScanSpanGrows | roshera-app/src/lib/streaming-math.ts:120-174 | The math pass over an extended span finds every boundary it found before, and any new one lies after the point decided so far. |
| StreamingSafety.Lossless | roshera-app/src/lib/streaming-math.ts:180-189 | The concatenated settled chunks and the tail are the text up to the pending start, or all of it when nothing is pending. |
| StreamingSafety.ChunksAreComplete | roshera-app/src/lib/streaming-math.ts:8-11 | Every settled chunk is non-empty and ends at the closing delimiter of a complete expression or at the end of a complete fenced block. |
| StreamingSafety.TailHasNoOpener | roshera-app/src/lib/streaming-math.ts:12-14 | The tail has no opener: every unescaped dollar in it is followed by whitespace or ends the text, and no line of it starts a fence. |
| StreamingSafety.MathIsSettled | roshera-app/src/lib/streaming-math.ts:15-18 | Every boundary the math pass finds is settled; none is cut off by what is pending. |
| StreamingSafety.FencedIsSettled | roshera-app/src/lib/streaming-math.ts:82-96 | Whatever is fenced before the cutoff lies before a settled boundary, never in the tail. |
| StreamingScan.FenceMarkerIsMatch | roshera-app/src/lib/streaming-math.ts:46-49 | The marker found on a line is exactly what the regular expression for fence lines matches. |
| StreamingScan.ScanSpanOk | roshera-app/src/lib/streaming-math.ts:120-174 | Boundaries of one span rise strictly and lie inside it, and an unclosed opener stands at or after all of them. |
| StreamingScan.ScanSpanClosesMath | roshera-app/src/lib/streaming-math.ts:129-170 | Every math boundary stands right after the closer of an expression whose opener follows the previous boundary. |
| StreamingScan.ScanSpanIsQuiet | roshera-app/src/lib/streaming-math.ts:120-174 | After the last boundary of a span no dollar opens anything before the halt or the end of the span. |
| StreamingFences.FencesOk | roshera-app/src/lib/streaming-math.ts:62-105 | The fence pass yields rising fence boundaries and disjoint prose spans, in document order, before any open fence. |
| StreamingFences.ProseSpansOk | roshera-app/src/lib/streaming-math.ts:68-105 | Prose spans lie inside the text in document order and never reach into a fence that closed. |
| StreamingFences.CutoffIs | roshera-app/src/lib/streaming-math.ts:107-119 | The cutoff is the unclosed opener if there is one, else the open fence, else the end of the text: an opener always stands before the open fence. |
| StreamingFences.BoundariesDistinct | roshera-app/src/lib/streaming-math.ts:176-178 | No position is collected twice by the two passes, so sorting gives strictly rising boundaries. |
| StreamingFences.SettledBoundsAre | roshera-app/src/lib/streaming-math.ts:178-188 | The cut positions are exactly the collected boundaries that do not exceed the cutoff, in rising order. |
| StreamingSplitter.CountsAsEscaped | roshera-app/src/lib/streaming-math.ts:38-42 | The backslash loop decides escapedness: an odd number of backslashes directly before the index. |
| StreamingSplitter.WalkFences | roshera-app/src/lib/streaming-math.ts:58-105 | The line loop computes the boundaries, prose spans and open fence that the proofs above are about. |
| StreamingSplitter.TakeLine | roshera-app/src/lib/streaming-math.ts:72-98 | One turn of the line loop: open a fence and end the prose span before it, or close the open one at the end of the line. |
| StreamingSplitter.FindDisplayClose | roshera-app/src/lib/streaming-math.ts:129-137 | The inner loop finds the first closing `$$` of the span. |
| StreamingSplitter.FindInlineClose | roshera-app/src/lib/streaming-math.ts:152-163 | The inner loop finds the first closing `$` that remark-math's whitespace rules allow. |
| StreamingSplitter.ScanProse | roshera-app/src/lib/streaming-math.ts:120-172 | The scan loop over one span collects its boundaries and its unclosed opener, if any. |
| StreamingSplitter.ScanMath | roshera-app/src/lib/streaming-math.ts:112-174 | The loop over the spans stops at the first unclosed opener and lets it win over a later open fence. |
| StreamingSplitter.CutChunks | roshera-app/src/lib/streaming-math.ts:180-189 | The cutting loop turns sorted boundaries and a cutoff into chunks and a tail. |
| StreamingSplitter.SplitStreamingText | roshera-app/src/lib/streaming-math.ts:57-191 | The whole imperative splitter returns the view that the theorems are about. |
| FenceMeaning.LinesAre | roshera-app/src/lib/streaming-math.ts:61-74 | The lines of a text: they follow each other, hold no newline, and each carries exactly the marker that the pattern matches. |
| FenceMeaning.FencesMean | roshera-app/src/lib/streaming-math.ts:58-105 | A position is a fence boundary exactly when it is the end of the first later line whose marker has the opening line's character and is at least as long; shorter or other markers in between leave the fence open. A fence is open at the end exactly when no line ends it, and the prose spans are exactly the runs between fences. |
| MathMeaning.DollarIs | roshera-app/src/lib/streaming-math.ts:38-42 | A dollar counts exactly when an even number of backslashes stands directly before it. |
| MathMeaning.ScanMeans | roshera-app/src/lib/streaming-math.ts:121-170 | The scan of a stretch of prose finds exactly the first closers of the expressions that open in it one after the other, and the one opener that never closes. |
| MathMeaning.MathMeans | roshera-app/src/lib/streaming-math.ts:107-174 | The math pass finds exactly where expressions close in prose, up to the first opener that is left unclosed. |
| MathMeaning.PendingMeans | roshera-app/src/lib/streaming-math.ts:176-191 | The view waits for math exactly when an opener is left unclosed in prose, else for a fence that never ends, else for nothing, and is cut off there. |
| MathMeaning.CutsMean | roshera-app/src/lib/streaming-math.ts:176-189 | A chunk ends at a position exactly when a fence or an expression ends there and nothing pending starts before it. |
| ProgramLedger.ChainingIsInlining | roshera-mcp/src/cad_program.ts:81-149 | A run's ops with their resolved arguments written out, escaped, pass up-front validation, hold no placeholder, and make the same handler calls with the same ledger, results and final state. |
| ProgramLedger.DispatchedOpInlines | roshera-mcp/src/cad_program.ts:414-456 | Each dispatched op, written out with the arguments it had, is planned without placeholders with exactly those arguments. |
| ProgramLedger.LedgerMatchesState | roshera-mcp/src/cad_program.ts:409-482 | Completed entries come first, in index order and ok; at most one failing entry follows and equals the stop; the state is the fold of exactly the recorded handler calls. |
| ProgramLedger.PlaceholdersReadCompletedOps | roshera-mcp/src/cad_program.ts:349-367 | Every placeholder of a dispatched op read the result of an op that had completed before it. |
| ProgramLedger.GuardedToolsNeverRun | roshera-mcp/src/cad_program.ts:32-41 | No run ever calls a composition tool, nor a destructive one without permission, nor a tool the table does not have. |
| ProgramLedger.IssuesAreTheFailures | roshera-mcp/src/cad_program.ts:298-389 | The issue list names exactly the ops that fail validation, with tool and reason, in index order. |
| ProgramLedger.InlinedOpIsReady | roshera-mcp/src/cad_program.ts:369-376 | Escaping resolved arguments makes a deferred op one that validates up front to the same parsed arguments. |
| CadProgram.NoIssuesIffValid | roshera-mcp/src/cad_program.ts:391-406 | The issue list is empty exactly when every op passes validation. |
| CadProgram.CollectRefs | roshera-mcp/src/cad_program.ts:334-335 | The collected list holds every placeholder of the arguments in document order. |
| CadProgram.ValidateOne | roshera-mcp/src/cad_program.ts:306-389 | Phase 1 for one op, guards first. |
| CadProgram.ValidateAll | roshera-mcp/src/cad_program.ts:298-389 | Phase 1 for all ops; on no issue, the plan of every op. |
| CadProgram.RunProgram | roshera-mcp/src/cad_program.ts:290-507 | Any issue refuses the program with no handler called and the world unchanged; otherwise the report, state and calls are those of the stop-at-first-failure run. |
| Placeholders.ParsesExactlyPlaceholders | roshera-mcp/src/cad_program.ts:71 | A whole string is a placeholder exactly when it is a dollar, a decimal index or `prev`, a dot and a path of word characters and dots; its target and path are those pieces. |
| Placeholders.SplitDotsJoins | roshera-mcp/src/cad_program.ts:123 | Splitting a path at dots and joining it again gives the path, and no key holds a dot. |
| Placeholders.EscapeIsLiteral | roshera-mcp/src/cad_program.ts:112-115 | For every JSON tree: substituting its escaped form gives the tree back, and the escaped form holds no placeholder. |
| Placeholders.SubstituteSucceedsIff | roshera-mcp/src/cad_program.ts:107-149 | Substitution succeeds exactly when every placeholder in the tree resolves. |
| Placeholders.SubstituteReadsOnlyRefs | roshera-mcp/src/cad_program.ts:107-149 | Substitution depends on earlier results only through the placeholders in the tree. |
| Placeholders.CollectPlaceholders | roshera-mcp/src/cad_program.ts:81-94 | The recursive collector appends exactly the placeholders of the tree, in order, to the shared list. |
| PlaceholderMeaning.ResolveMeans | roshera-mcp/src/cad_program.ts:112-138 | A placeholder resolves to a value exactly when a chain of properties leads from its target's result to it: members of objects, elements and lengths of arrays. Otherwise the failure names the missing result, or the first missing key and the keys there are. |
| PlaceholderMeaning.WalkMeans | roshera-mcp/src/cad_program.ts:123-136 | Following a path ends exactly where its keys lead, one property after the other, or at the first key that is missing, with the keys of the value that misses it. |
| PlaceholderMeaning.DecimalIsNumeral | roshera-mcp/src/cad_program.ts:88 | The index of a placeholder is the number that its digits stand for. |
| PlaceholderMeaning.SubstituteMeans | roshera-mcp/src/cad_program.ts:107-149 | Substitution gives exactly the value in which each placeholder is replaced by the value it names, each doubled dollar by one, and everything else stands as it was. |
| PlaceholderMeaning.SubstituteFails | roshera-mcp/src/cad_program.ts:107-149 | A failing substitution fails on the first placeholder in reading order that names nothing, for the reason it names nothing. |
| ProgramMeaning.DeferredWhen | roshera-mcp/src/cad_program.ts:306-367 | An op with placeholders passes validation exactly when both guards let it through, its tool exists and every placeholder reads an earlier op. |
| ProgramMeaning.ReadyWhen | roshera-mcp/src/cad_program.ts:368-388 | An op without placeholders passes exactly when the guards let it through and the schema accepts its arguments with doubled dollars undone. |
| ProgramMeaning.FailsWhen | roshera-mcp/src/cad_program.ts:306-389 | Which reason an op that fails is given: the guards first, then its tool, its first bad reference or the schema's message. |
| ProgramMeaning.DeferredArgs | roshera-mcp/src/cad_program.ts:414-440 | A deferred op runs with exactly what the schema makes of its arguments once every placeholder is replaced. |
| ProgramMeaning.FirstJsonIs | roshera-mcp/src/cad_program.ts:156-172 | Later ops read the first text block of a result that parses to an object or an array, and nothing when there is none. |
| ProgramMeaning.CertificateIs | roshera-mcp/src/cad_program.ts:188-235 | The certificate of an op is the first perception in its result, by its soundness if that is stated and else by its verdict. |
| CanonicalIdentity.CanonicalIdentifies | roshera-mcp/src/registry.ts:424-441 | Two JSON values print the same canonical text exactly when they are equal up to member order at every level. |
| CanonicalIdentity.KeyIdentifiesCall | roshera-mcp/src/gates.ts:577-579 | The text that the refusal key hashes is equal for two calls exactly when tool and arguments are, up to member order. |
| CanonicalIdentity.ReadCanonical | roshera-mcp/src/registry.ts:424-441 | A reader following RFC 8259, sections 4 to 7, recovers from the canonical text the value with its members in canonical order, and stops where it ends. |
| JsonReader.ReadPrinted | roshera-mcp/src/registry.ts:424-441 | Reading undoes printing for every JSON tree, whatever follows the printed text. |
| JsonReader.ReadEscapedText | roshera-mcp/src/registry.ts:429-436 | Reading a quoted string undoes `JSON.stringify`'s escapes for every string. |
| CanonicalJson.CanonicalIsPrintOfNormal | roshera-mcp/src/registry.ts:424-441 | Printing with keys sorted on the way equals printing the value whose members are sorted at every level. |
| CanonicalJson.StringLeTotal | roshera-mcp/src/registry.ts:432 | The key order, by UTF-16 code units, is total and antisymmetric, so sorting leaves one canonical order. |
| CanonicalBytes.CanonicalIsBTreeTextIff | roshera-mcp/src/registry.ts:419-441 | For every well-formed value, the canonical text equals the text with members in the byte order of a `BTreeMap`, as the comment promises, exactly when no object at any level has two keys whose first differing characters pit a supplementary character against one from U+E000 up. |
| CanonicalBytes.BTreeTextCanDiffer | roshera-mcp/src/registry.ts:419-423 | A concrete object whose two texts differ. |
| CanonicalBytes.KeyOrderIsByteOrderIff | roshera-mcp/src/registry.ts:419-423 | For two keys, the code's order agrees with the UTF-8 byte order exactly when they do not clash in that way. |
| CanonicalMeaning.EscapeIsShortest | roshera-mcp/src/registry.ts:429-436 | Each character is printed as the shortest text that a JSON reader reads as it, with lower-case digits: so `/` stands for itself, and a newline is never spelled out. |
| CanonicalMeaning.KeysOrderedByUnits | roshera-mcp/src/registry.ts:432 | The key order is that of UTF-16 code units, by the first unit in which two keys differ. |
| CanonicalMeaning.AbsentArgumentsAreEmpty | roshera-mcp/src/gates.ts:577-579 | A call without arguments, or with null for them, has the key of the call with an empty object; other arguments stand for themselves after a NUL. |
| Fnv.StepIsBijection | roshera-mcp/src/registry.ts:455-457 | Each byte step is a bijection on 64-bit states, with an explicit inverse. |
| Fnv.FoldBound | roshera-mcp/src/registry.ts:452-458 | The state stays below 2^64. |
| Fnv.FoldAppend | roshera-mcp/src/registry.ts:455-458 | Hashing a concatenation continues from the state of the first part. |
| Fnv.FoldInjective | roshera-mcp/src/registry.ts:455-458 | Over the same input two states stay equal exactly when they were equal. |
| Fnv.CommonEndsCancel | roshera-mcp/src/registry.ts:455-458 | A common prefix and suffix cancel: two inputs collide exactly when the parts that differ do, from the state of the prefix. |
| Fnv.OneByteNeverCollides | roshera-mcp/src/registry.ts:449-460 | Two inputs of equal length that differ in exactly one byte never have the same hash. |
| Fnv.PrintedHashSpells | roshera-mcp/src/registry.ts:459 | The printed hash has sixteen hexadecimal digits that spell the hash. |
| Fnv.Fnv1a64Hex | roshera-mcp/src/registry.ts:449-460 | The loop computes the padded hexadecimal text of the fold. |
| FnvMeaning.PublishedHashes | roshera-mcp/src/registry.ts:449-458 | The empty text and `a` have the published FNV-1a hashes cbf29ce484222325 and af63dc4c8601ec8c. |
| FnvMeaning.XorBits | roshera-mcp/src/registry.ts:456 | A bit of the exclusive or is set exactly when it is set on one side only. |
| FnvMeaning.PrintedHashIs | roshera-mcp/src/registry.ts:459 | The printed hash is the only text of sixteen lower-case hexadecimal digits that spells the hash. |
| LaneInvariants.StepKeepsExactly | roshera-app/src/lib/lineage-lanes.ts:157-232 | One op keeps live lanes and carriers in one-to-one correspondence and merges recorded on both sides exactly when it does not give its survivor two different ids. |
| LaneInvariants.StepKeeps | roshera-app/src/lib/lineage-lanes.ts:157-232 | Also, an op leaves carried exactly the entities it neither consumed nor deleted and those it produced. |
| LaneInvariants.TwoSuccessorsBreak | roshera-app/src/lib/lineage-lanes.ts:214-226 | From any state, an op with solid inputs and two different solid outputs ends with one lane carried under two ids. |
| LaneInvariants.WalkKeeps | roshera-app/src/lib/lineage-lanes.ts:130-239 | The invariant over every history of single-successor ops. |
| LaneInvariants.BeforeOutputsKeeps | roshera-app/src/lib/lineage-lanes.ts:168-212 | Consuming, deleting and ending a survivor keep the invariant, with the survivor in limbo while it awaits its next id. |
| LaneAccounting.CarriedIsLastProduced | roshera-app/src/lib/lineage-lanes.ts:123-129 | However often an id is recycled, it is carried exactly when its most recent production still stands, and then by the lane whose last tick is that production. |
| LaneAccounting.StepSpares | roshera-app/src/lib/lineage-lanes.ts:157-232 | An op leaves every lane unchanged that carries none of the ids it mentions. |
| LaneAccounting.EndedStays | roshera-app/src/lib/lineage-lanes.ts:157-232 | A lane that has ended gets no tick and no other end from any later op. |
| LaneAccounting.StepGrows | roshera-app/src/lib/lineage-lanes.ts:185-230 | An op only appends ticks to a lane, and only its own. |
| LaneAccounting.BuildInOrder | roshera-app/src/lib/lineage-lanes.ts:130-131 | In every lane of a built document the ticks stand in sequence order, in whatever order the nodes were served. |
| LaneConservation.MergesSettle | roshera-app/src/lib/lineage-lanes.ts:185-192 | Following `intoLane` from any lane reaches one that did not merge, within as many links as there were ops: merging never cycles. |
| LaneConservation.WalkAccounts | roshera-app/src/lib/lineage-lanes.ts:155-166 | Ops equal those on lanes plus the unattached ones, which are kept in order. |
| LaneConservation.TicksAreReferences | roshera-app/src/lib/lineage-lanes.ts:185-230 | The number of ticks is the number of solid inputs and outputs plus the deletes of standing solids that were not inputs. |
| LaneConservation.BuildConserves | roshera-app/src/lib/lineage-lanes.ts:234-238 | The invariant, terminating merges and both conservation laws for a whole document, in whatever order it was served. |
| LaneBuilder.Builder.OpenLane | roshera-app/src/lib/lineage-lanes.ts:138-153 | A new lane object, pushed and made the carrier of its entity. |
| LaneBuilder.Builder.Touch | roshera-app/src/lib/lineage-lanes.ts:168-178 | The touched lane objects are those the inputs resolve to, opening lanes for inputs nothing carries. |
| LaneBuilder.Builder.ConsumeTouched | roshera-app/src/lib/lineage-lanes.ts:185-192 | Ticking and merging the touched lane objects in place, aliases included. |
| LaneBuilder.Builder.DeleteRefs | roshera-app/src/lib/lineage-lanes.ts:194-201 | Ending in place the lanes of deleted entities. |
| LaneBuilder.Builder.Produce | roshera-app/src/lib/lineage-lanes.ts:214-231 | Breaking off displaced lanes and moving the survivor to each produced id, or bearing lanes, in place. |
| LaneBuilder.Builder.Apply | roshera-app/src/lib/lineage-lanes.ts:157-232 | One turn of the loop on mutable lanes is one step of the walk; lanes are only added, as new objects. |
| LaneBuilder.BuildLanes | roshera-app/src/lib/lineage-lanes.ts:130-239 | The builder ends in the walk over the sorted nodes. |
| LaneMeaning.OpMeans | roshera-app/src/lib/lineage-lanes.ts:157-232 | What an op makes of each lane it finds, from the node alone: its new ticks and id, and how it ends. The first input's lane is deleted if the operation mentions deleting and nothing is produced, dangling if not; other inputs merge into it; a standing deleted solid is deleted; a displaced produced id is shadowed; all with the op's sequence number. |
| LaneMeaning.OpBears | roshera-app/src/lib/lineage-lanes.ts:216-230 | An op without inputs bears one lane for each id it produces, in order, and one with inputs none; a lane whose id the same op produces again is broken off at once. |
| LaneMeaning.BuildMeans | roshera-app/src/lib/lineage-lanes.ts:130-239 | In a built document each op does just that to the lanes it finds, whatever came before, and an end it gave stands. |
| LaneMeaning.ResolveMeans | roshera-app/src/lib/lineage-lanes.ts:168-178 | Each input names the lane that carries it, or one that enters from before the window, opened where it is first named. |
| LaneMeaning.AttachedIs | roshera-app/src/lib/lineage-lanes.ts:157-166 | An op is on lanes exactly when it is linked and some reference of it names a solid. |
| LaneMeaning.IncludesDeleteIs | roshera-app/src/lib/lineage-lanes.ts:205 | The operation mentions deleting exactly when the word stands somewhere in its text. |
| Sorting.SortIsSortedPermutation | roshera-app/src/lib/lineage-lanes.ts:131 | Sorting orders the elements and neither loses nor invents one. |
| Sorting.SortIsStable | roshera-app/src/lib/lineage-lanes.ts:131 | Elements that rank alike, such as ops with one sequence number, keep the order they came in. |
| GateHistory.RunRemembers | roshera-mcp/src/gates.ts:526-563 | In every reachable session the cache, the open intent and the unverified tally are what the history of dispatches says: the newest 128 refusals minted since the world changed, the last checkpoint, and the work since the last clean point. |
| GateHistory.MutationUnderIntent | roshera-mcp/src/gates.ts:1226-1228 | A solid-mutating handler runs only while an intent with a non-generic name stands. |
| GateHistory.CheckpointClosesLookedAtWork | roshera-mcp/src/gates.ts:1187-1225 | A well-named checkpoint outside the cache is refused exactly when work is outstanding under the open intent and not waived; otherwise it proceeds and carries the verdict whether the waiver was needed. |
| GateHistory.StepWork | roshera-mcp/src/gates.ts:1405-1452 | One dispatch keeps intent and tally equal to their definitions by history. |
| GateHistory.StepCache | roshera-mcp/src/gates.ts:1390-1405 | One dispatch keeps the cache equal to its definition by history. |
| GateHistory.CacheBounded | roshera-mcp/src/gates.ts:418-439 | At most 128 refusals, of different calls, none from a gate on a live fact. |
| GateHistory.NoStaleIntentRefusal | roshera-mcp/src/gates.ts:1405-1410 | In a run of leaf dispatches, every cached refusal is the one its turn minted, and none was given for want of an intent while an intent is open. |
| GateHistory.HeldExactlyWhileLasting | roshera-mcp/src/gates.ts:1395-1405 | A refusal is held exactly until a tool outside the read-only ones completes without refusing, or the 128th further refusal is cached. |
| GateHistory.ReissueAnswered | roshera-mcp/src/gates.ts:1145-1165 | While it lasts, a refusal answers every re-issue of the call, its members in any order, without reaching the handler. |
| PointBudget.PointBudget | roshera-mcp/src/gates.ts:587-606 | With at most 64 sketches named, handlers never add more than 32 single points to one sketch, whatever is interleaved; with fewer than 64, never more than 8 without another call between. |
| PointBudget.MapsBounded | roshera-mcp/src/gates.ts:1371-1387 | Both counter maps hold at most 64 entries in every run, one per key. |
| PointLimits.CountersBoundedInEveryRun | roshera-mcp/src/gates.ts:587-606 | In every run whose point handlers answer as the two of the source do, with the new id, the number of points added or an error, no counter ever stands above 8 within a burst or 32 in all. |
| PointLimits.HonestPointsStayBounded | roshera-mcp/src/gates.ts:1367-1388 | The same for any point handlers that mark their refusals as errors. |
| PointLimits.RunBoundsCounters | roshera-mcp/src/gates.ts:1353-1388 | For any handlers, both counters stay within their limits throughout a run exactly when no event of it replays a success-shaped refusal into a full counter. |
| PointLimits.AnswersAreHonest | roshera-mcp/src/tools/psketch.ts:84-91 | An answer that states only the new id or the number of points added is no refusal, so every refusal of a point is marked as an error. |
| PointLimits.SameCallsSamePoint | roshera-mcp/src/gates.ts:577-647 | Calls that share a refusal key add to the same sketch, if to any. |
| PointBudget.StepBoundsCounters | roshera-mcp/src/gates.ts:1367-1388 | What the gate does by itself in one dispatch: it keeps the counters within 8 and 32 exactly when it does not replay a success-shaped refusal for a sketch whose counter is full. |
| PointBudget.ReplaysRunUp | roshera-mcp/src/gates.ts:1353-1388 | What the gate by itself does not stop: if a handler refused a point without calling that an error, every re-issue would raise both counters by one. Neither point handler of the source gives such a result. |
| PointBudget.SoftPointRefusalExists | roshera-mcp/src/tools/create.ts:75-90 | A call that the schema of `sketch_points` accepts, and a result that the gate would take for such a refusal. |
| GateBrackets.BracketsRemember | roshera-mcp/src/gates.ts:1390-1410 | However `invoke` and `cad_program` nest: at most 128 cached refusals, of different calls, none on a live fact, and while an intent is open none that goes back to the want of one, first hand, replayed or relayed. |
| GateBrackets.WantsOnlyWithoutIntent | roshera-mcp/src/metatools.ts:569-592 | No call, direct or invoked, is answered that an intent is wanted while one is open. |
| GateBrackets.DeedRemembers | roshera-mcp/src/registry.ts:130-144 | One dispatch keeps that, whatever is dispatched inside it before its own outcome is recorded under its earlier turn. |
| GateBrackets.BracketsBoundCounters | roshera-mcp/src/gates.ts:1367-1388 | The limits of 8 and 32 hold however calls nest. |
| BracketHistory.BracketsTold | roshera-mcp/src/gates.ts:1347-1453 | However calls nest: the open intent and the unverified tally are what the log of the leaves says, no solid-mutating handler was reached but under a named intent, and a well-named checkpoint outside the cache was refused exactly when it would have closed work nobody had looked at. |
| BracketHistory.DeedTold | roshera-mcp/src/registry.ts:130-144 | One dispatch keeps that, whatever is dispatched inside it; recording a bracket touches neither intent nor tally. |
| BracketHistory.BracketsKeepBudget | roshera-mcp/src/gates.ts:587-606 | However calls nest, handlers add at most 32 single points to a sketch while at most 64 sketches are named. |
| InvokedPoints.InvokedPointsMakeNoBurst | roshera-mcp/src/metatools.ts:590-591 | In a session of invoked leaves, each through one `invoke` or more, nothing is ever refused for its burst: recording each `invoke` clears the run counter. |
| InvokedPoints.InvokedPointsPass | roshera-mcp/src/gates.ts:1367-1388 | From a new session, any 32 invoked points of one sketch all reach their handler, four times the burst limit. |
| GateBrackets.LeavesRun | roshera-mcp/src/registry.ts:97-146 | Without brackets the session and the log are those of the plain run. |
| Gates.SessionGates.PreDispatchGate | roshera-mcp/src/gates.ts:1140-1280 | The gate in the order of the code decides as the specification function. |
| Gates.SessionGates.CountSinglePoint | roshera-mcp/src/gates.ts:1367-1388 | Both counters after a dispatch, with the wholesale clear of one and the eviction of the other. |
| Gates.SessionGates.CacheTypedRefusal | roshera-mcp/src/gates.ts:1391-1403 | The first-in-first-out cache after a refusal. |
| Gates.SessionGates.RecordDispatchOutcome | roshera-mcp/src/gates.ts:1347-1453 | The whole session state after a dispatch is recorded. |
| Gates.SessionGates.Dispatch | roshera-mcp/src/registry.ts:97-146 | The wrapper around every handler is one step of the session: gate, handler, record; a throwing handler records nothing. |
| GateMeaning.ClaimClears | roshera-mcp/src/gates.ts:905-928 | A `verify_claim` clears the tally exactly when it is no error, some binding measures something other than a constant, and the first text of its answer parses to a body that does not refuse. |
| GateMeaning.ConstantsClearNothing | roshera-mcp/src/gates.ts:905-912 | In every run, a claim of constants alone leaves the outstanding work as it was. |
| GateMeaning.GatesInOrder | roshera-mcp/src/gates.ts:1140-1280 | A call that is not cached meets exactly these gates in this order, with these limits. |
| GateMeaning.CacheAnswersFirst | roshera-mcp/src/gates.ts:1140-1160 | A cached refusal is answered again, before any other gate, with the note of its turn. |
| GateMeaning.PointIsCounted | roshera-mcp/src/gates.ts:1367-1388 | A point that is no error counts one more for its sketch in both counters and leaves the others, up to the eviction of the oldest. |
| GateMeaning.SinglePointKeyIs | roshera-mcp/src/gates.ts:631-647 | Exactly a point entity and a list of one point count as a single point, each for its own sketch. |
| GateMeaning.RefusalIs | roshera-mcp/src/gates.ts:205-228 | A result is a typed refusal exactly when its body parses and says so, with the gate that it names. |
| GateMeaning.MutatorsAre | roshera-mcp/src/gates.ts:351-380 | The verbs that need an open intent, by what they do. |
| GateMeaning.ReadersAre | roshera-mcp/src/gates.ts:239-350 | The verbs that never count as work, by what they read. |
| RecordMeaning.GatesMint | roshera-mcp/src/gates.ts:139-155 | Whatever a gate refuses with is an error that says it refuses and names the gate that stands for its reason. |
| RecordMeaning.WorkIs | roshera-mcp/src/gates.ts:1433-1453 | A call counts one more thing to look at exactly when its tool reshapes solids, an intent is open, and it succeeded or halted after a part of its work. |
| RecordMeaning.SettlingIs | roshera-mcp/src/gates.ts:1406-1440 | A checkpoint opens its intent with nothing to look at, wiping the ledger closes it, wiping the parts does not. |
| RecordMeaning.RefusalIsHeld | roshera-mcp/src/gates.ts:1390-1404 | A refusal is held under its call and turn, at the cost of the oldest of 128, unless it rests on a live fact or its call has one; it touches neither the intent nor the work. |
| BracketMeaning.ProgramStopsAtFailure | roshera-mcp/src/cad_program.ts:409-482 | A program dispatches its ops in order, up to and including the first that fails, and no other. |
| BracketMeaning.InvokeAnswersInner | roshera-mcp/src/metatools.ts:569-592 | An `invoke` answers what the inner dispatch answers, and that is recorded as its own outcome under the turn it began with, unless the inner dispatch threw. |
| Auth.RefreshTokensAreSingleUse | roshera-app/src/lib/auth.ts:202-249 | However 401s, timers, logins and logouts interleave, with a server that rotates: at most one refresh in flight, no refresh token presented twice, no request sent more than twice. |
| Auth.StepSpendsOnce | roshera-app/src/lib/auth.ts:231-240 | A stretch keeps refresh tokens single-use exactly when it does not leave in store a token already spent. |
| Auth.ReuseFollows | roshera-app/src/lib/auth.ts:237-241 | After a grant without a replacement, one more 401 presents the spent token again. |
| Auth.ReuseHappens | roshera-app/src/lib/auth.ts:237-241 | From any loaded page with a refresh token, a 401, such a grant and one more 401 do present the token twice. |
| AuthLogout.LogoutHoldsIff | roshera-app/src/lib/auth.ts:237-241 | After a logout the tokens stay away until the next login, whatever else happens, exactly when no refresh was on its way that could still renew: a refresh on its way holds the pair it is granted without looking. |
| AuthLogout.RunStaysOut | roshera-app/src/lib/auth.ts:288-292 | In a given run without a login, no token is held throughout exactly when no refresh renews. |
| AuthLogout.StepStaysOut | roshera-app/src/lib/auth.ts:193-292 | Out of a store without tokens, only a granting login or a granting refresh brings one back. |
| AuthLogout.LogoutUndone | roshera-app/src/lib/auth.ts:237-241 | From any loaded page with a refresh token: a 401, a logout and the granted answer leave the new token held. |
| Auth.StepOneInFlight | roshera-app/src/lib/auth.ts:200-214 | Every stretch keeps the refresh in flight the only one that is not over, without any assumption on the server. |
| Auth.StepSendsAtMostTwice | roshera-app/src/lib/auth.ts:352-366 | Every stretch keeps: a request is sent once, and again only if renewable and refreshed. |
| Auth.StepKeeps | roshera-app/src/lib/auth.ts:193-249 | The three invariants together, with the exact condition. |
| Auth.AuthModule.HandleAuthFailure | roshera-app/src/lib/auth.ts:193-198 | The session is cleared and re-authentication asked for. |
| Auth.AuthModule.RefreshAccessToken | roshera-app/src/lib/auth.ts:208-221 | Join the refresh in flight and change nothing, or begin one. |
| Auth.AuthModule.FinishRefresh | roshera-app/src/lib/auth.ts:228-249 | The last stretch of a refresh: hold the granted pair or fail the session. |
| Auth.AuthModule.FinishLogin | roshera-app/src/lib/auth.ts:270-282 | The last stretch of a login. |
| Auth.AuthModule.Logout | roshera-app/src/lib/auth.ts:288-292 | Timer and both tokens are cleared. |
| AuthMeaning.RefreshDecidesRetry | roshera-app/src/lib/auth.ts:352-363 | In every run, a request that waits on a granted refresh is sent a second time when it goes on, with nothing else changed; one that waits on a refused refresh is answered, and a login is asked for. |
| AuthMeaning.WhyAnswered | roshera-app/src/lib/auth.ts:349-366 | In every run, a request was answered after one sending exactly when its first answer was no 401, or it was not renewable, or the network failed it, or its refresh was refused; and it was sent twice exactly when it went on after a granted refresh. |
| AuthMeaning.WhyGranted | roshera-app/src/lib/auth.ts:217-250 | In every run, a refresh that is over was granted exactly when it read, from an answer that was fine, a body that says success and has a token. |
| AuthMeaning.WhyLoginIsAsked | roshera-app/src/lib/auth.ts:192-366 | In every run, a login is asked for only after a refresh was refused or had no token to present, a retry met a 401, or a request went on without a refresh. |
| AuthMeaning.FirstAnswerIs | roshera-app/src/lib/auth.ts:349-353 | What the first answer to a request does: final, or joined to the refresh in flight, or to a new one that presents the held token. |
| AuthMeaning.ReadIs | roshera-app/src/lib/auth.ts:232-245 | What a refresh makes of a body: the granted pair, with the old refresh token where no replacement came, or the end of the session. |
| GizmoCommit.NoMoveIsSentTwice | roshera-app/src/lib/gizmo-commit.ts:240-252 | From a new session over any viewport, for any drags, timeouts and server updates in between: from a committed transform of a part to the next one sent for it, the viewport's mesh of the part has changed, as long as no needed resync fails. |
| GizmoCommit.RunNeverSendsAgain | roshera-app/src/lib/gizmo-commit.ts:253-320 | The same from any state that keeps the invariant. |
| GizmoCommit.StepKeeps | roshera-app/src/lib/gizmo-commit.ts:253-320 | A stretch keeps every committed move arrived, waited for or locked exactly when it is not the failing resync of a drag whose mesh has not come. |
| GizmoCommit.LostMoveIsSentAgain | roshera-app/src/lib/gizmo-commit.ts:273-275 | After a failed resync the very next drag of the part is sent, composed on the same mesh. |
| GizmoCommit.AMoveCanBeLost | roshera-app/src/lib/gizmo-commit.ts:266-279 | From a new session, with any part and any timing: a committed drag whose mesh does not come and whose resync fails leads there. |
| GizmoCommit.NothingSentAgain | roshera-app/src/lib/gizmo-commit.ts:292-303 | In any state that keeps the invariant no drag is sent on the mesh of the part's last committed one. |
| GizmoCommit.SettleKeeps | roshera-app/src/lib/gizmo-commit.ts:267-272 | A look at the viewport keeps the invariant, whether it settles, waits on or goes to resync. |
| GizmoCommit.ResyncKeeps | roshera-app/src/lib/gizmo-commit.ts:273-279 | A resync keeps the invariant exactly when it resolves or the mesh has come anyway. |
| GizmoCommit.GizmoSession.IsStale | roshera-app/src/lib/gizmo-commit.ts:258-265 | The lock clears itself once a later mesh has landed. |
| GizmoCommit.GizmoSession.Release | roshera-app/src/lib/gizmo-commit.ts:282-302 | Refused while busy or locked; otherwise busy until the drag is over, even with nothing to send. |
| GizmoCommit.GizmoSession.Returned | roshera-app/src/lib/gizmo-commit.ts:315-319 | The outcome of a drag that did not commit ends it. |
| GizmoCommit.GizmoSession.LookOnce | roshera-app/src/lib/gizmo-commit.ts:268-272 | One turn of the settling loop. |
| GizmoCommit.GizmoSession.Resynced | roshera-app/src/lib/gizmo-commit.ts:273-279 | A mesh that still has not come locks the part; a rejected resync does not. |
| GizmoMeaning.DropIs | roshera-app/src/lib/gizmo-commit.ts:255-300 | A drag is let through exactly when none is under way and no lock of its part stands: a part whose mesh has changed since it was locked is free again. |
| GizmoMeaning.BusyIffUnderWay | roshera-app/src/lib/gizmo-commit.ts:281-320 | In every run the session is busy exactly while a drag is under way, and there is only one, so it never stays shut. |
| GizmoMeaning.WaitsForTimeout | roshera-app/src/lib/gizmo-commit.ts:267-284 | A committed drag whose mesh does not come waits until the first look at which the timeout is up, and then asks for a resync. |
| GizmoMeaning.ResyncIs | roshera-app/src/lib/gizmo-commit.ts:267-284 | A resync that resolves locks the part if its mesh has still not come; one that fails locks nothing and ends the drag as thrown. |
| OneEdit.WithinOneEdit | roshera-mcp/src/metatools.ts:209-219 | For all strings, the loop answers yes exactly when their Levenshtein distance is at most one. |
| OneEdit.DistanceSymmetric | roshera-mcp/src/metatools.ts:204-208 | The distance is symmetric, and so is the test. |
| OneEdit.OneEditAtMismatch | roshera-mcp/src/metatools.ts:215-218 | Where two strings part, one edit suffices exactly when dropping a character on one side, or on both, makes them equal. |
| OneEdit.AtMostOneIsOneEdit | roshera-mcp/src/metatools.ts:210-221 | A distance of at most one means that the strings are equal, or that leaving out or changing the character at one position makes them so. |
| SseStream.ChunksDoNotMatter | roshera-app/src/lib/acp-client.ts:351-366 | Events and rest depend only on the concatenated text, for any chunks that do not end inside a CRLF. |
| SseStream.ChunksDoNotMatterWithoutCr | roshera-app/src/lib/acp-client.ts:351-366 | A stream without carriage returns may be cut anywhere. |
| SseCuts.SplitMattersUnlessHarmless | roshera-app/src/lib/acp-client.ts:355 | For a cut inside a CRLF: the events are those of the uncut text exactly when the lost blank line would have separated no data, or the line that keeps the carriage return is no data or belongs to no complete block. |
| SseCuts.CrMattersUnlessHarmless | roshera-app/src/lib/acp-client.ts:357-365 | The same condition in terms of the data pending at the cut, the line that is cut and the text after it. |
| SseCuts.SplitCrLfChangesEvent | roshera-app/src/lib/acp-client.ts:355 | For any data line, a chunk that ends inside its CRLF puts the carriage return into the payload. |
| SseStream.NormaliseDistributes | roshera-app/src/lib/acp-client.ts:355 | Normalising piece by piece gives the normalised whole exactly when the cut does not split a CRLF. |
| SseStream.OnlyCompleteEvents | roshera-app/src/lib/acp-client.ts:357-365 | All events come from the text up to the last blank line, and no complete block stays behind. |
| SseStream.FollowsTheStandard | roshera-app/src/lib/acp-client.ts:349-366 | For a stream without lone carriage returns, in chunks that split no CRLF, the events are those of the line machine of the WHATWG HTML standard, section 9.2.6, on data fields, exactly when no complete block has a line that is just `data`. |
| SseStream.NormaliseFindsLineEnds | roshera-app/src/lib/acp-client.ts:355 | Normalising finds the line ends of the standard exactly when no carriage return stands alone. |
| SseStream.LoneCrsHideAnEvent | roshera-app/src/lib/acp-client.ts:355-365 | Two lone carriage returns after any data line end an event of the standard that the code does not read. |
| SseStream.DispatchIsBlocks | roshera-app/src/lib/acp-client.ts:357-365 | Reading line by line, as the standard does, equals reading block by block. |
| SseStream.AcpSseStream.Receive | roshera-app/src/lib/acp-client.ts:355-365 | One chunk: the inner loop cuts off every complete block and keeps the rest. |
| SseStream.AcpSseStream.Start | roshera-app/src/lib/acp-client.ts:349-366 | The outer loop over all chunks. |
| SseMeaning.StreamReadsWritten | roshera-app/src/lib/acp-client.ts:351-366 | Events that a server writes line by line, in whatever chunks they arrive, are handed on in order and as they were, and nothing stays behind. |
| SseMeaning.PayloadIs | roshera-app/src/lib/acp-client.ts:361-363 | A data line gives what stands after the colon, less one space; any other line gives nothing. |
| PerceptionStash.ReportsConserved | roshera-mcp/src/core.ts:302-328 | Over every run that loses none: delivered reports followed by the stashed ones are all that arrived, in order, and the unlisted counts add up. |
| PerceptionStash.StepConserves | roshera-mcp/src/core.ts:948-980 | A step conserves reports exactly when it is neither the failing GET that consumed an uncertified block with reports, nor a response with reports but no perception block. |
| PerceptionStash.CarryKeeps | roshera-mcp/src/core.ts:308-322 | Replacing a stash keeps what it held in front of what is new, and sums the unlisted counts. |
| PerceptionStash.Core.ApiResponse | roshera-mcp/src/core.ts:299-329 | The stash after a response. |
| PerceptionStash.Core.PerceivePart | roshera-mcp/src/core.ts:935-1065 | The stash after a perception, and the reports it hands over. |
| PerceptionMeaning.ReportsReachTheirPart | roshera-mcp/src/core.ts:943-953 | In every run, a perception takes the stash or hands over reports only when the last response that brought a block named its part, or no part. |
| PerceptionMeaning.BlockIs | roshera-mcp/src/core.ts:463-530 | A response brings a block exactly when it states a certificate or a verdict; the block is certified exactly when the certificate is an object not marked as not run, and keeps the name and the reports as stated. |
| PerceptionMeaning.CarriedIs | roshera-mcp/src/core.ts:308-327 | What a replaced block leaves: its reports in front, the counts added, everything else from the new block. |
| PerceptionMeaning.PerceiveIs | roshera-mcp/src/core.ts:935-1051 | Which block a perception takes, and when it hands over its reports. |

## Left out

- Text: strings are sequences of characters, not of UTF-16 code units; lone surrogates, `TextEncoder` and `TextDecoder` are not modelled. Only the key order of canonical JSON is computed in code units.
- Numbers in JSON are held as the text `JSON.stringify` prints for them; NaN, infinities and `undefined` inside `canonicalJson` do not occur.
- Objects are lists of members with different keys; inherited properties, which the placeholder's `in` test also sees, do not occur, and neither do op indices beyond exact integers.
- Placeholders.EscapeIsLiteral: an own key `__proto__` does not occur; for it the assignment `out[k]` in the substitution (`roshera-mcp/src/cad_program.ts:144`) sets the prototype instead, so the member is lost.
- CanonicalBytes.CanonicalIsBTreeTextIff: the two texts are compared by the order of members; that `to_string` prints numbers and escapes as `JSON.stringify` does is taken for granted.
- Hash collisions: the refusal key is its text before hashing, so the cache cannot confuse two calls.
- Gates.SessionGates.Dispatch: gate, handler and record are one step for a leaf; `GateBrackets` opens that step for the dispatches inside `invoke` and `cad_program`, but dispatches that two callers interleave at their awaits are not covered.
- GateBrackets.BracketsRemember: the arguments an `invoke` passes on, and the report of a program, are inputs, not computed from the outer arguments and the ops; that the cache equals its definition by history is proved for runs of leaves only.
- Gates.SessionGates.PreDispatchGate: the fetches behind the unsound-base and sheet gates are inputs that say what they found; `preflight` notes for fetches that could not complete, and their attachment to the result, are not modelled.
- The two regular expressions for generic checkpoint names are one abstract predicate on names.
- Message wording, ledger notes, near-miss suggestions and the gate refusals' explanatory fields are not modelled.
- CadProgram.RunProgram: handlers and schemas are functions of state and arguments, so a program run is not interleaved with other calls; the limit of 50 ops and the program's own schema are not modelled.
- The rest of the tool registry, with the ranking of tools by floating-point scores in `find_tool`, is not modelled.
- Sorting.SortIsSortedPermutation: `Array.prototype.sort` is a library call, taken as an insertion sort, which `SortIsStable` shows to be stable.
- The field `name` of a lane, always null, and the eras drawn behind the lanes are not modelled.
- Auth.RefreshTokensAreSingleUse: storage always works and belongs to one page, so a failed `removeItem` or a second tab is not covered; listeners do not throw; when the timer fires is arbitrary; which urls count as renewable is an input.
- Auth.AuthModule.RefreshAccessToken: a promise is the number of its refresh; its waiters resume after it has left `inFlightRefresh`.
- GizmoCommit.NoMoveIsSentTwice: the poses and the trigonometry of `planKernelTransform` are an abstract plan; the hops between a handler's answer and the end of its drag, where nothing is awaited from outside, are one stretch; restoring poses and reporting lines are not modelled.
- SseStream.FollowsTheStandard: streams with lone carriage returns are not covered, because there the code and the standard do differ (`LoneCrsHideAnEvent`); the standard's byte order mark, event names, ids and retry times are not modelled, nor are the watchdog and the connection.
- SseStream.ChunksDoNotMatter: a CRLF split across two chunks is normalised in neither, so the chunks must not split one; `SseCuts` says for one such cut when it changes the events, not for several at once.
- PerceptionStash.ReportsConserved: a perception is one step, its fallback GET either succeeds or fails, and sums are exact; certificate fields other than the lost-operation reports are not modelled.
- OneEdit.WithinOneEdit: the stemming and scoring around it are not modelled.
- The blackboard outbox, workbench switching, prompt history, session counters, cards, viewer, React components, REST clients and benchmarks are not modelled, nor is the Rust kernel.
