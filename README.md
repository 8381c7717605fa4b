# BlueCov coverage instrumenter — a verified Dafny model

BlueCov adds line and branch coverage to compiled Java classes. It reads the
property list JBMC prints for a class (each property names a source location,
a bytecode offset in a method and the source lines it covers). It registers
one basic block per property in a coverage ledger and gets a UID for it. Then
it rewrites the class so that, before every instruction whose block is
registered, a three-instruction probe calls `CoverageLog.record(uid)`. At run
time the ledger counts the hits. Afterwards a report lists, for every property
name, its hit count and its covered lines.

The model has one module per source file, plus three supporting modules:

- `CoverageLog` (coverage_log.dfy) is the ledger.
  - The ledger's state is a value, `LedgerState`: five tables and the UID counter.
  - Register, get-UID, record, reset, the shutdown merge and the two read-back maps are specified over that value.
  - The class `CoverageLog` holds the same tables as `map` fields, and its methods are proved against those functions.
  - `Singleton` models the static `instance` field behind `getInstance`.
- `InstrumentByteCode` (instrument_byte_code.dfy) is the per-method rewriter, the class `MethodRewriter`.
  - Its offset counter `bcLine` advances once per real instruction.
  - It probes an instruction when the block hash of its offset is in the offset table.
  - It widens `visitMaxs` by two after a probe, and it forwards `visitCode` in place of `visitEnd`.
  - `ProbedInsns` is the reference definition of the probed instruction stream.
  - `ProbedBody` places the same probes among the other method events, which pass through unchanged.
- `ExtendStaticInit` (extend_static_init.dfy) is the rewriter for `<clinit>`.
  - The logger-handle pair (`INVOKESTATIC getInstance`, `PUTSTATIC` of the reporter field) goes ahead of `visitCode`.
  - The declared stack becomes `max(1, maxStack)` before the parent's rule.
  - Its class holds an ordinary rewriter and overrides `visitCode` and `visitMaxs`.
- `FieldAdapter` (field_adapter.dfy) is the class visitor, the class `ClassAdapter`.
  - `visitField` sets the already-instrumented flag. `visitMethod` chooses the rewriter.
  - `visitEnd` adds the static reporter field and, if the class has no `<clinit>`, synthesizes one.
  - `AdaptedClass` is what a whole class becomes.
- `CoverageInstrument` (coverage_instrument.dfy) is `instrumentClassFile`:
  - the search for the properties array and the interface check;
  - the resolver loop, which covers `coveredLines` parsing with `addRange`, the stripping of function names, the offset table, registration and the printed diagnostics;
  - the class rewrite and the post-pass that reports UIDs nothing probed.
  - `InstrumentSpec` is the whole call as a function, and `InstrumentClassFile` is proved equal to it.
- `CoverageReport` (coverage_report.dfy) is `getReport`: one `{goalID, hitCount, coveredLines}` record per property name.
- Supporting modules:
  - `Wrappers` (wrappers.dfy) holds `Option` and `Result`. A Java exception is the `Thrown` outcome of a `Result`.
  - `JavaStrings` (java_strings.dfy) holds the JDK operations the code relies on: `Integer.toString`, `Integer.parseInt`, `String.split` on one character, and `String.hashCode` over UTF-16 code units with 32-bit wrap-around.
  - `Bytecode` (bytecode.dfy) holds the events an ASM `ClassReader` reports for a class and its methods, with the opcodes and access flags of the Java Virtual Machine Specification (SE 8), sections 4.1 and 6.5.

Iteration order is a parameter wherever the code iterates a `HashMap` or an
`HTreeMap`. It is a sequence listing each key once (`Enumerates`), or a
function `keyOrder` from a table to such a sequence. Every property is proved
for all orders. The messages printed during `instrumentClassFile`, its own
and the field adapter's "added a `<clinit>`" line, are returned as a list of
`Diagnostic` values, in printing order.

`getReport` keeps each record's covered lines in the order they were stored;
it does not sort them. It builds one record per distinct property name: two
UIDs with the same name give one record, built from the UID that comes last
in iteration order.

Hit counts are Java `Integer`s. A `record` at Integer.MAX_VALUE, and a
shutdown merge whose sum passes it, wrap around to negative counts, and the
model computes them the same way (`Wrap32`).

## Model

| member | source | states |
|---|---|---|
| CoverageLog.Opened | src/main/java/org/cprover/coverage/CoverageLog.java:149 | a freshly opened ledger's UID counter is the number of known locations |
| CoverageLog.CoverageHashCollides | src/main/java/org/cprover/coverage/CoverageLog.java:385-390 | the block hash is not injective: for every method and offset, the different block IDs of classes `Aa` and `BB` get the same hash |
| CoverageLog.BasicBlockIDInjective | src/main/java/org/cprover/coverage/CoverageLog.java:370-375 | the block ID determines class, method and offset when the class has no `.` and the method no `@` |
| CoverageLog.RegisterOnce | src/main/java/org/cprover/coverage/CoverageLog.java:249-256 | a second register of the same key changes nothing; a first one stores block ID, name and lines under the key and advances the counter by exactly 1 |
| CoverageLog.UIDStableAfterRegister | src/main/java/org/cprover/coverage/CoverageLog.java:400-406 | after registering the UID getCoverageUID gave for a block ID, asking again gives the same UID |
| CoverageLog.GetThenRegisterConsistent | src/main/java/org/cprover/coverage/CoverageInstrument.java:194-205 | get-UID-then-register keeps the ledger consistent (UIDs are exactly 0..id-1, block-ID table the inverse of the location table), stores the block ID under the UID, keeps earlier blocks and counts, and advances the counter exactly for a new block ID |
| CoverageLog.Recorded | src/main/java/org/cprover/coverage/CoverageLog.java:223-230 | record sets the key to its old count plus one as a Java int, an absent key counting as 0, leaves every other key alone, and keeps every count an int |
| CoverageLog.RecordWrapsAtIntMax | src/main/java/org/cprover/coverage/CoverageLog.java:228 | a count at Integer.MAX_VALUE becomes Integer.MIN_VALUE on the next record |
| CoverageLog.Zeroed | src/main/java/org/cprover/coverage/CoverageLog.java:411-415 | every key of the map, and no other, maps to 0 |
| CoverageLog.Merged | src/main/java/org/cprover/coverage/CoverageLog.java:344-350 | the merge adds each in-memory count to the durable count (absent as 0) in int arithmetic, which wraps, and leaves durable-only keys untouched |
| CoverageLog.MergeIntoIsMerged | src/main/java/org/cprover/coverage/CoverageLog.java:344-350 | run's key-by-key loop, reading the count stored so far for each key, gives `Merged` in every iteration order |
| CoverageLog.RecordAllCounts | src/main/java/org/cprover/coverage/CoverageLog.java:223-230 | after a run of record calls each key's count is its old count plus the number of times the run recorded it, as a Java int: exact up to Integer.MAX_VALUE, wrapped beyond |
| CoverageLog.FlushAddsRecordedHits | src/main/java/org/cprover/coverage/CoverageLog.java:338-351 | from a zero-seeded in-memory map, the merged durable count of every key is its old count plus the number of times it was recorded, as a Java int |
| CoverageLog.ReadBackAgrees | src/main/java/org/cprover/coverage/CoverageLog.java:293-320 | getHitCounts and getLinesForBlock have a name exactly when some iterated UID has it, and both take count (0 when absent) and lines from the same UID, the last in iteration order |
| CoverageLog.NamesAreReported | src/main/java/org/cprover/coverage/CoverageLog.java:295-301 | the name of every iterated UID is a key of getHitCounts |
| CoverageLog.CoverageLog.constructor | src/main/java/org/cprover/coverage/CoverageLog.java:120-151 | opening a store loads its tables, starts the counter at the number of locations, and is neither in-memory nor reporting |
| CoverageLog.CoverageLog.SeedInMemory | src/main/java/org/cprover/coverage/CoverageLog.java:183-190 | in-memory mode seeds 0 for exactly the keys of the count table |
| CoverageLog.CoverageLog.Record | src/main/java/org/cprover/coverage/CoverageLog.java:223-230 | the in-memory map becomes `Recorded` of the old one |
| CoverageLog.CoverageLog.Register | src/main/java/org/cprover/coverage/CoverageLog.java:242-257 | the ledger becomes `Registered` of the old one |
| CoverageLog.CoverageLog.GetCoverageUID | src/main/java/org/cprover/coverage/CoverageLog.java:400-406 | the stored UID of a known block ID, else the current counter, which is not advanced |
| CoverageLog.CoverageLog.ResetCoverage | src/main/java/org/cprover/coverage/CoverageLog.java:411-415 | every in-memory count becomes 0, with the key set unchanged |
| CoverageLog.CoverageLog.SetReport | src/main/java/org/cprover/coverage/CoverageLog.java:327-329 | the report flag takes the given value |
| CoverageLog.CoverageLog.Run | src/main/java/org/cprover/coverage/CoverageLog.java:337-351 | in in-memory mode the count table becomes the reopened table merged with the in-memory counts (int sums, which wrap); otherwise it is unchanged |
| CoverageLog.CoverageLog.GetHitCounts | src/main/java/org/cprover/coverage/CoverageLog.java:293-304 | the loop over the location table builds `HitCounts` for that iteration order |
| CoverageLog.CoverageLog.GetLinesForBlock | src/main/java/org/cprover/coverage/CoverageLog.java:313-320 | the loop over the location table builds `LinesForBlock` for that iteration order |
| CoverageLog.Singleton.GetInstance | src/main/java/org/cprover/coverage/CoverageLog.java:180-195 | the first call opens the store and seeds the in-memory map when asked; later calls return the same ledger whatever their argument |
| JavaStrings.ParseInt | src/main/java/org/cprover/coverage/CoverageInstrument.java:164-168 | parseInt of an optional sign and ASCII digits yields only values that fit an int, and NumberFormatException otherwise |
| JavaStrings.ParseIntOfToString | src/main/java/org/cprover/coverage/CoverageInstrument.java:179 | parseInt inverts Integer.toString on every int |
| JavaStrings.SplitJoin | src/main/java/org/cprover/coverage/CoverageInstrument.java:159-161 | split gives back the pieces joined with the separator when none contains it and the last is not empty |
| JavaStrings.HashCode | src/main/java/org/cprover/coverage/CoverageLog.java:389 | String.hashCode is a 32-bit signed value |
| JavaStrings.HashCodeOfSupplementary | src/main/java/org/cprover/coverage/CoverageLog.java:389 | a character above U+FFFF is hashed as its two UTF-16 surrogates: the hash of U+1F600 is 31 * 0xD83D + 0xDE00 |
| JavaStrings.HashCodeAaBB | src/main/java/org/cprover/coverage/CoverageLog.java:389 | any two strings that begin with `Aa` and `BB` and end alike have the same hash |
| InstrumentByteCode.SameBlockSameProbe | src/main/java/org/cprover/coverage/InstrumentByteCode.java:241-257 | with the ledger's hash, whether an offset is probed and with which UID depends only on the block ID |
| InstrumentByteCode.Probe | src/main/java/org/cprover/coverage/InstrumentByteCode.java:271-279 | the probe is three instructions: GETSTATIC of the reporter field, LDC uid, INVOKEVIRTUAL record(I)V |
| InstrumentByteCode.ProbeAt | src/main/java/org/cprover/coverage/InstrumentByteCode.java:265-283 | three instructions at an offset whose hash is in the table, none elsewhere |
| InstrumentByteCode.HitUidsMembers | src/main/java/org/cprover/coverage/InstrumentByteCode.java:281 | the listed UIDs of a range are exactly the table's UIDs of its probed offsets |
| InstrumentByteCode.ProbedInsnsLength | src/main/java/org/cprover/coverage/InstrumentByteCode.java:265-283 | the instruction stream grows by three per probed offset |
| InstrumentByteCode.ProbedInsnsAt | src/main/java/org/cprover/coverage/InstrumentByteCode.java:110-115 | the i-th original instruction keeps its order and, when offset i is probed, the three instructions just before it are the probe for that offset's UID |
| InstrumentByteCode.ProbedBodyFilters | src/main/java/org/cprover/coverage/InstrumentByteCode.java:109-231 | the rewritten body's instructions are the reference probed stream and its other events are the original ones, in order |
| InstrumentByteCode.ProbedBodyWithoutHits | src/main/java/org/cprover/coverage/InstrumentByteCode.java:265-266 | with no probed offset the body is forwarded unchanged |
| InstrumentByteCode.RewrittenBody | src/main/java/org/cprover/coverage/InstrumentByteCode.java:289-302 | a fresh rewriter's output: the reference stream, three more instructions per probe, visitMaxs widened by 2 exactly when a probe was emitted, maxLocals kept, visitCode in place of visitEnd |
| InstrumentByteCode.IntList.Add | src/main/java/org/cprover/coverage/InstrumentByteCode.java:281 | the value is appended to the list, and nothing else changes |
| InstrumentByteCode.MethodRewriter.constructor | src/main/java/org/cprover/coverage/InstrumentByteCode.java:76-87 | a new rewriter targets the given class, method id and table, at offset 0 and not yet probed |
| InstrumentByteCode.MethodRewriter.InstrumentCurrentOffset | src/main/java/org/cprover/coverage/InstrumentByteCode.java:265-283 | forwards the probe for the current offset, lists its UID and sets the flag, or does nothing |
| InstrumentByteCode.MethodRewriter.VisitInsn | src/main/java/org/cprover/coverage/InstrumentByteCode.java:109-115 | probe first, then the instruction unchanged; the offset advances by exactly 1 |
| InstrumentByteCode.MethodRewriter.VisitOther | src/main/java/org/cprover/coverage/InstrumentByteCode.java:82 | a call the rewriter does not override is forwarded unchanged and does not move the offset |
| InstrumentByteCode.MethodRewriter.VisitMaxs | src/main/java/org/cprover/coverage/InstrumentByteCode.java:289-295 | maxStack + 2 after a probe, maxStack otherwise; maxLocals kept |
| InstrumentByteCode.MethodRewriter.VisitEnd | src/main/java/org/cprover/coverage/InstrumentByteCode.java:297-302 | clears the flag and forwards visitCode, not visitEnd |
| InstrumentByteCode.MethodRewriter.VisitEvent | src/main/java/org/cprover/coverage/InstrumentByteCode.java:109-231 | one body event: forwarded as `ProbedBody`, the offset advancing by one exactly for an instruction |
| InstrumentByteCode.MethodRewriter.VisitBody | src/main/java/org/cprover/coverage/InstrumentByteCode.java:109-231 | a whole body: forwarded as `ProbedBody`, the offset advanced by its instruction count, the probed UIDs listed in offset order |
| InstrumentByteCode.MethodRewriter.AcceptBody | src/main/java/org/cprover/coverage/InstrumentByteCode.java:289-302 | one method from visitCode to visitEnd forwards `Rewritten` and leaves the flag cleared |
| InstrumentByteCode.MethodRewriter.AcceptCode | src/main/java/org/cprover/coverage/InstrumentByteCode.java:289-302 | the same for a method with a Code attribute |
| ExtendStaticInit.PutLoggerInstance | src/main/java/org/cprover/coverage/ExtendStaticInit.java:62-73 | the pair, and nothing else, is forwarded |
| ExtendStaticInit.StaticInitMaxStack | src/main/java/org/cprover/coverage/ExtendStaticInit.java:93-95 | the stack is the larger of 1 and maxStack |
| ExtendStaticInit.StaticInitShape | src/main/java/org/cprover/coverage/ExtendStaticInit.java:82-95 | the pair precedes visitCode and every original instruction; probes are placed by the original offsets; the stack is max(1, maxStack) plus 2 after a probe; maxLocals kept |
| ExtendStaticInit.StaticInitRewriter.constructor | src/main/java/org/cprover/coverage/ExtendStaticInit.java:45-53 | the inner rewriter targets the class, method id and table at offset 0 |
| ExtendStaticInit.StaticInitRewriter.VisitCode | src/main/java/org/cprover/coverage/ExtendStaticInit.java:82-85 | the pair is forwarded straight downstream, then visitCode |
| ExtendStaticInit.StaticInitRewriter.VisitMaxs | src/main/java/org/cprover/coverage/ExtendStaticInit.java:93-95 | the parent's rule applied to max(1, maxStack) |
| ExtendStaticInit.StaticInitRewriter.AcceptBody | src/main/java/org/cprover/coverage/ExtendStaticInit.java:24-95 | `<clinit>` from visitCode to visitEnd forwards `RewrittenStaticInit` and lists the probed UIDs |
| ExtendStaticInit.StaticInitRewriter.AcceptCode | src/main/java/org/cprover/coverage/ExtendStaticInit.java:82-95 | the same for a `<clinit>` with a Code attribute |
| FieldAdapter.HasFieldNamedIff | src/main/java/org/cprover/coverage/FieldAdapter.java:119-121 | the already-instrumented flag is set exactly when some field has the reporter field's name |
| FieldAdapter.AdaptedMethodsWhenInstrumented | src/main/java/org/cprover/coverage/FieldAdapter.java:175-189 | once the flag is set every method passes through unwrapped and no UID is listed |
| FieldAdapter.PassThroughWhenInstrumented | src/main/java/org/cprover/coverage/FieldAdapter.java:113-189 | a class that declares the reporter field is copied through with no added field, no synthesized `<clinit>` and no UID listed |
| FieldAdapter.AdaptedClassFields | src/main/java/org/cprover/coverage/FieldAdapter.java:132-136 | the fields forwarded are the class's own, followed by the reporter field unless it was there |
| FieldAdapter.AdaptedFields | src/main/java/org/cprover/coverage/FieldAdapter.java:132-136 | an instrumented class keeps exactly its fields; any other gets exactly one more, the reporter field |
| FieldAdapter.OutputIsMarked | src/main/java/org/cprover/coverage/FieldAdapter.java:119-136 | the output always declares the reporter field, so a second pass is a pass-through |
| FieldAdapter.StaticInitTakesLoggerFirst | src/main/java/org/cprover/coverage/FieldAdapter.java:138-147 | an existing `<clinit>` with code and the synthesized one both start with the logger pair; the synthesized one is the pair and RETURN |
| FieldAdapter.SynthesizedOnlyWithoutStaticInit | src/main/java/org/cprover/coverage/FieldAdapter.java:132-151 | visitEnd of a class being instrumented forwards the field, then a synthesized `<clinit>` exactly when the class has none, then visitEnd |
| FieldAdapter.ClassAdapter.constructor | src/main/java/org/cprover/coverage/FieldAdapter.java:83-98 | a fresh adapter is not instrumented and has seen no `<clinit>` |
| FieldAdapter.ClassAdapter.VisitField | src/main/java/org/cprover/coverage/FieldAdapter.java:113-123 | sets the flag when the name is the reporter field's and always forwards the field unchanged |
| FieldAdapter.ClassAdapter.VisitMethod | src/main/java/org/cprover/coverage/FieldAdapter.java:169-190 | `<clinit>` goes through the static-initialiser rewriter and sets hasStaticInit, other methods through the ordinary rewriter, both with id `name:desc`; once instrumented, unwrapped |
| FieldAdapter.ClassAdapter.VisitEnd | src/main/java/org/cprover/coverage/FieldAdapter.java:131-152 | forwards `Trailer`: field and `<clinit>` as needed, then visitEnd always; reports that it added a `<clinit>` exactly when it synthesized one (the line 148 message) |
| FieldAdapter.ClassAdapter.Accept | src/main/java/org/cprover/coverage/CoverageInstrument.java:234-238 | reading a class through a fresh adapter forwards `AdaptedClass`, lists `ClassHits` and sets the flag exactly when the class has the field; reports an added `<clinit>` exactly when the class has neither the field nor a `<clinit>` |
| CoverageInstrument.Range | src/main/java/org/cprover/coverage/CoverageInstrument.java:268-270 | min, min+1, ..., max in ascending order, empty when min > max |
| CoverageInstrument.AddRange | src/main/java/org/cprover/coverage/CoverageInstrument.java:264-271 | appends exactly `Range(min, max)` to the list |
| CoverageInstrument.ReadLineNumbers | src/main/java/org/cprover/coverage/CoverageInstrument.java:157-175 | the loop over comma tokens computes `LineNumbers`: ranges, single numbers, [0] when absent, the first exception otherwise |
| CoverageInstrument.CoveredLinesRoundTrip | src/main/java/org/cprover/coverage/CoverageInstrument.java:158-170 | the text of any list of lines and ranges parses back to exactly their lines |
| CoverageInstrument.CoveredLinesExample | src/main/java/org/cprover/coverage/CoverageInstrument.java:158-170 | "3-5,9" gives [3, 4, 5, 9] |
| CoverageInstrument.AddRangeNeverEndsAtIntMax | src/main/java/org/cprover/coverage/CoverageInstrument.java:268-270 | the loop as written never finishes when max is Integer.MAX_VALUE, whatever the bound on steps |
| CoverageInstrument.AddRangeAsWrittenAgrees | src/main/java/org/cprover/coverage/CoverageInstrument.java:268-270 | for max below Integer.MAX_VALUE the loop as written computes `Range(min, max)` |
| CoverageInstrument.Dotted | src/main/java/org/cprover/coverage/CoverageInstrument.java:184 | every `/` of the class name becomes `.`, and nothing else changes |
| CoverageInstrument.FunctionNameRoundTrip | src/main/java/org/cprover/coverage/CoverageInstrument.java:181-191 | `java::` + dotted class + `.` + method gives back the method |
| CoverageInstrument.FunctionNameShape | src/main/java/org/cprover/coverage/CoverageInstrument.java:181-191 | an accepted function name is a 6-character prefix, the dotted class, one character and a method name without `.` |
| CoverageInstrument.NestedMemberSkipped | src/main/java/org/cprover/coverage/CoverageInstrument.java:188-191 | a remainder that still contains `.` is skipped |
| CoverageInstrument.ResolveAllExtends | src/main/java/org/cprover/coverage/CoverageInstrument.java:192-209 | later properties only add: table entries (first descriptor per hash wins), registered blocks, counts and messages persist |
| CoverageInstrument.FailureSticks | src/main/java/org/cprover/coverage/CoverageInstrument.java:144-216 | once an exception escapes, no later property is looked at |
| CoverageInstrument.ResolvedBlocksAreInTable | src/main/java/org/cprover/coverage/CoverageInstrument.java:192-196 | every property naming a block of the class leaves that block's hash in the table, so its method's rewriter probes it |
| CoverageInstrument.ResolveSound | src/main/java/org/cprover/coverage/CoverageInstrument.java:192-205 | one resolved block keeps the ledger consistent and every table entry naming a block whose ID hashes to its key |
| CoverageInstrument.ResolveAllSound | src/main/java/org/cprover/coverage/CoverageInstrument.java:144-216 | the same through the whole loop |
| CoverageInstrument.SoundTableInjective | src/main/java/org/cprover/coverage/CoverageInstrument.java:192-196 | no two hashes of the table share a UID |
| CoverageInstrument.ReadEntry | src/main/java/org/cprover/coverage/CoverageInstrument.java:145-191 | one property's warnings, lines, offset and method, or its skip or exception, as `ParseEntry` |
| CoverageInstrument.ResolveProperties | src/main/java/org/cprover/coverage/CoverageInstrument.java:144-216 | the loop leaves ledger, table, messages and exception as `ResolveAll` |
| CoverageInstrument.FirstPropertiesIsFirst | src/main/java/org/cprover/coverage/CoverageInstrument.java:123-130 | none exactly when no record has properties; otherwise the first record that has them |
| CoverageInstrument.FindProperties | src/main/java/org/cprover/coverage/CoverageInstrument.java:123-130 | the search loop returns `FirstProperties` |
| CoverageInstrument.RemoveFirst | src/main/java/org/cprover/coverage/CoverageInstrument.java:246 | removing one occurrence takes exactly one copy of the value out of the multiset |
| CoverageInstrument.ReportUninstrumented | src/main/java/org/cprover/coverage/CoverageInstrument.java:244-247 | the removal loop computes `Unprobed` |
| CoverageInstrument.UnprobedCounts | src/main/java/org/cprover/coverage/CoverageInstrument.java:244-247 | what remains is the values' multiset minus the probed UIDs' multiset |
| CoverageInstrument.UnprobedExactly | src/main/java/org/cprover/coverage/CoverageInstrument.java:243-250 | with distinct values, a UID remains exactly when it is a value and was never probed |
| CoverageInstrument.NotInstrumentedAll | src/main/java/org/cprover/coverage/CoverageInstrument.java:248-250 | one error per remaining UID, in order |
| CoverageInstrument.WriteClass | src/main/java/org/cprover/coverage/CoverageInstrument.java:219-254 | the adapter run and post-pass give `WriteOutcome`: the adapted class, the adapter's added-`<clinit>` message and the unprobed UIDs, or the already-instrumented warning |
| CoverageInstrument.InstrumentClassFile | src/main/java/org/cprover/coverage/CoverageInstrument.java:111-255 | outcome, ledger and messages are `InstrumentSpec` of the old ledger, and the shutdown report is off |
| CoverageInstrument.InstrumentKeepsLedger | src/main/java/org/cprover/coverage/CoverageInstrument.java:132-216 | the ledger stays consistent, keeps every block and all counts, and is untouched when no properties are found or the class is an interface |
| CoverageInstrument.WrittenIsMarked | src/main/java/org/cprover/coverage/CoverageInstrument.java:234-254 | a written class declares the reporter field; it was already instrumented exactly when the input had it, and then it is copied and nothing is reported missing |
| CoverageInstrument.AddedStaticInitReported | src/main/java/org/cprover/coverage/FieldAdapter.java:131-152 | after the loop, an instrumented class is announced as given a `<clinit>` exactly when it had none; the message precedes the post-pass's and the class then ends in the field, the synthesized `<clinit>` and visitEnd |
| CoverageInstrument.UninstrumentedExactly | src/main/java/org/cprover/coverage/CoverageInstrument.java:243-250 | the UIDs reported as not instrumented are exactly the table's UIDs that no probe of the class used |
| CoverageInstrument.TableReportExact | src/main/java/org/cprover/coverage/CoverageInstrument.java:244-250 | on a sound table read in any key order, the post-pass leaves exactly the unused UIDs |
| CoverageReport.NamesHaveLines | src/main/java/org/cprover/coverage/CoverageReport.java:39-53 | every name of the hit-count map has a line list |
| CoverageReport.EntriesAt | src/main/java/org/cprover/coverage/CoverageReport.java:44-60 | the i-th record carries the i-th name with that name's count and lines |
| CoverageReport.ReportEntryFromUID | src/main/java/org/cprover/coverage/CoverageReport.java:44-59 | each record's count (0 when never hit) and lines (stored order) come from the last UID with its name |
| CoverageReport.GoalIDsAreNames | src/main/java/org/cprover/coverage/CoverageReport.java:44-50 | goalIDs are the map's names in iteration order, each the name of some registered UID |
| CoverageReport.GoalIDsDistinct | src/main/java/org/cprover/coverage/CoverageReport.java:39-45 | no two records share a goalID |
| CoverageReport.EveryNameReported | src/main/java/org/cprover/coverage/CoverageReport.java:39-45 | every name of a registered UID has a record |
| CoverageReport.CopyLines | src/main/java/org/cprover/coverage/CoverageReport.java:52-58 | the inner loop copies the stored lines in stored order |
| CoverageReport.GetReport | src/main/java/org/cprover/coverage/CoverageReport.java:37-63 | turns off the shutdown report and returns `Report` of the ledger |

## Left out

- MapDB storage, memory-mapped files, the cleaner hack, cross-process file locking, environment variables and the shutdown-hook registration are not modelled. The five tables are maps. `Run` is called with the count table as reopened from the store.
- The `report(boolean)` printer and every `System.out` line are left out. The messages printed during `instrumentClassFile`, including the field adapter's, are returned as a `Diagnostic` list, without their text.
- JSON parsing is not modelled. Properties are already-parsed records whose members are optional. The `name` member is assumed present, since `getString` on a missing member throws before anything else happens.
- ASM's ClassReader and ClassWriter and the class-file bytes are not modelled. A class is its fields and methods. A method is the sequence of events a reader reports. The output is the sequence of calls the class writer receives, so stack properties are stated on the `visitMaxs` call, before ClassWriter's `COMPUTE_MAXS` recomputes it.
- The class header (`visit`), attributes, annotations, signatures, field visitor events, and the `null` method visitor case of `visitMethod` are collapsed or left out. A class writer always returns a method visitor.
- Reading and writing class files, the batch main loops, `CoverageReport.main` and `doReport` are I/O. An interface is the `CopiedUnchanged` outcome, meaning its input bytes are written back out as read.
- `CoverageReset` is left out. It is a two-call driver over `getInstance` and `resetCoverage`, both modelled.
- `InstrumentByteCodeVisitor` is left out. It only adds a debug print to the ordinary rewriter, which the model uses in its place.
- HashMap and HTreeMap iteration order is a parameter, not a particular hash-table order.
- The copy of `lineNumbers` into an `int[]` is collapsed. The line list is passed to `register` as a sequence.
- The JSON output text of `getReport` is left out. It returns the records as values.
- The UID counter and `bcLine` are unbounded integers. Their 32-bit wrap-around after 2^31 registrations or instructions is not modelled.
- JavaStrings.ParseInt: accepts only the ASCII digits 0-9, where Integer.parseInt also accepts every other Unicode decimal digit (for example "٣" is 3). The numbers JBMC writes into coveredLines and bytecodeIndex are ASCII.
- CoverageLog.RecordAllCounts: requires the starting counts to be ints, as every value of an Integer map is.
- CoverageLog.FlushAddsRecordedHits: requires the durable counts to be ints, as every value of the Integer-serialized count table is.
- CoverageLog.CoverageLog.Record: requires in-memory mode, where the source would throw NullPointerException on the null map.
- CoverageLog.CoverageLog.ResetCoverage: requires in-memory mode, for the same reason.
- CoverageInstrument.UninstrumentedExactly: requires the key order to list each key of a table once, which HashMap iteration guarantees.
- The rewriter's block hash is a function value, `BlockHash`. It is instantiated with the ledger's `CoverageHash`, and the link is proved once (`LedgerHashIsHashCode`).

## Findings

| source | as written | input that shows it | evidently intended | confidence | as-written member | corrected member |
|---|---|---|---|---|---|---|
| src/main/java/org/cprover/coverage/CoverageInstrument.java:268-270 | `for (int k = min; k <= max; k++)` with `int k`: when max is Integer.MAX_VALUE, `k <= max` always holds and `k++` wraps to Integer.MIN_VALUE, so the loop never ends | a property whose coveredLines is "2147483647-2147483647" | append min..max and stop, as for every smaller max | not executed | CoverageInstrument.AddRangeNeverEndsAtIntMax | CoverageInstrument.AddRange |
