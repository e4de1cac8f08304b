# A model of LeanToken's measurement harnesses, with proofs

LeanToken measures itself with a family of evidence harnesses. They compare
responses, fold session rollouts into receipts, correlate a host's view with the
MCP wire, classify what became of retrieved context, aggregate randomised suites
and record the wire. This project models the algorithms of six of them in Dafny and
proves what they are relied on for.

- **JSON parity engine** (`Json*`, `GeneratedKeys`, `Receipt*`, `ResponseParity`,
  `AnsiSgr`, `Utf8`): the capped difference list refines an uncapped one that holds, in
  pre-order, exactly the uppermost pointers at which the values differ; stripping of
  generated keys reaches into JSON text embedded in strings; what normalising does to
  each entry and block; a renamed receipt id is invisible under an exact condition, and
  a second normalisation changes nothing under another; both canonical forms decide
  equality; the SGR scanner deletes exactly the complete sequences.
- **Session family and rollout accounting** (`Session*`, `ProviderUsage`, `Thread*`):
  breadth-first resolution returns exactly what parent chains reach; depths are chain
  lengths; which rollouts are accepted and every accumulated field, said on the lines
  alone; inherited history does not count; sums overflow exactly when the exact totals do.
- **Host rollout and MCP correlation** (`HostRollout*`, `HostReceipts`, `Mcp*`): an event
  automaton with its invariants and the meaning of its state on the lines, a recogniser of
  the opening handshake with the exact gap to the specification, matching by id, and two
  loops that count the same follow-ups.
- **Context signals** (`RepositoryPath`, `Context*`): indexed flags equal a naive
  scan of all later retrieval calls under an exact condition, and every row says what the
  trajectory events and the trace say. The path normaliser is a parameter up to
  `classify`, which passes the harness's own.
- **Suite aggregation** (`Suite*`, `Bootstrap*`, `XorShift`): a pigeonhole argument
  makes every later pairing total; totals are sums over the receipts of the files; which
  pairs each state word draws; bootstrap intervals stay within the paired savings; the
  generator's step is a bijection that avoids zero.
- **Wire recorder** (`Wire*`): two proxy threads and the main thread as one state
  machine over all interleavings, with safety, freedom from deadlock and an end to every
  run; the same recorder as a class; and their agreement.

Loops that update variables are methods proved against a specification function or
predicate; accumulators and recorders are classes; the properties are lemmas about
the specifications, proved without automatic induction. JSON text is read and written by
a pair of functions of which only the laws in `JsonCodec.Lawful` are used; `JsonText`
gives a pair that meets them. Objects of parsed text iterate in key order, because the
repository builds `serde_json` without its `preserve_order` feature.

## What turned out otherwise than one might expect

- The test on the cap of recorded paths is an equality. A list that is already full
  and meets a new path grows to 33 (`ResponseParity.CapIsExceeded`); the exact
  condition is `ResponseParity.WithinCapIff`.
- A receipt id is read from every payload text that parses, but generated keys are
  removed only from texts whose first character is a brace. A payload that starts with
  white space therefore keeps its id, and renaming it shows; so does a link that named
  the new id already (`ReceiptRenaming.RenamingIsHiddenIff`,
  `JsonText.SpaceHidesTheBrace`, `ReceiptRenaming.LinkToNewIdShows`). For the same
  reason a second normalisation may rewrite a link that the first one kept
  (`ReceiptRepeat.SecondPassIff`, `SecondPassChanges`).
- Removing SGR sequences once can create a new one (`AnsiSgr.NotIdempotent`); a scan of
  the line tells when (`AnsiSgr.IdempotentIff`).
- The host parser passes over an output whose call id it does not know yet, so an
  accepted rollout may hold an output before its call
  (`HostRolloutProperties.EarlyOutputIsAccepted`, `AcceptedOutputs`).
- The handshake check takes any server message with the right id for the result, its
  requests and its errors too, and counts ids of the server's own requests among those
  that must differ (`McpHandshake.RequestsPassForResponses`, `ErrorsPassForResults`,
  `SharedIdIsRejected`, `ConformsIff`).
- The per-path index counts a call `prewalk:x` that the trajectory never made when it
  made a retrieval call `x`; the hash and receipt indexes do not
  (`ContextArtifacts.StrayIsCounted`, `ContextSignals.DescribesIff`).
- The host's test on cumulative usage lets uncached input fall
  (`ProviderUsage.HostTestIsWeaker`).
- Comparing turn counts after the loop rejects nothing that the test for an open turn
  does not (`ThreadRollout.CountComparisonIsRedundant`,
  `HostRolloutProperties.AcceptedTurns`), and neither does the check for a first
  request's usage (`ThreadRollout.FirstUsageCheckIsRedundant`).

## Model

| member | source | states |
|---|---|---|
| `JsonDiff.PathLog.Collect` | examples/mcp_multiprocess_profile.rs:1265-1307 | a call appends to the log the entries of the uncapped pre-order difference list, in order, and stops when the log holds 32 |
| `JsonDiff.PathLog.CollectKeys` | examples/mcp_multiprocess_profile.rs:1270-1286 | the object arm: the union of both key sets in ascending order, each key once, stopping at the cap |
| `JsonDiff.PathLog.CollectItems` | examples/mcp_multiprocess_profile.rs:1287-1300 | the array arm: every index of the longer array, stopping at the cap |
| `JsonDiffProperties.EmptyIffSame` | examples/mcp_multiprocess_profile.rs:1265-1268 | the difference list is empty exactly when the two values are equal |
| `JsonDiffProperties.EntryDiffers` | examples/mcp_multiprocess_profile.rs:1265-1307 | every entry names a place where the values differ or only one exists, and goes as deep as the difference does |
| `JsonDiffProperties.DifferenceCovered` | examples/mcp_multiprocess_profile.rs:1265-1307 | wherever the values differ, an entry lies on the way there or below: nothing is missed |
| `JsonDiffProperties.SameEverywhere` | examples/mcp_multiprocess_profile.rs:1266-1268 | equal values agree at every pointer, so the early return loses nothing |
| `JsonDiffProperties.MismatchesPrefixFree` | examples/mcp_multiprocess_profile.rs:1270-1305 | no entry is a prefix of another one |
| `JsonDiffOrder.EntryIff` | examples/mcp_multiprocess_profile.rs:1265-1307 | a pointer is an entry exactly when the values differ there without being containers of one kind, and at no pointer above it |
| `JsonDiffOrder.EntriesInOrder` | examples/mcp_multiprocess_profile.rs:1270-1300 | the entries come in pre-order: where two of them part, the earlier one takes the lesser key or the lower index |
| `JsonDiffProperties.ReportReadsBack` | examples/mcp_multiprocess_profile.rs:1301-1311 | read as a pointer of RFC 6901, a reported text names exactly its entry; the one exception is a root mismatch, written "/" |
| `JsonDiffProperties.ReportIsSound` | examples/mcp_multiprocess_profile.rs:1252-1253 | a fresh call reports the first 32 entries; each decodes to differing values and none to a prefix of another |
| `JsonDiffProperties.ReportDistinct` | examples/mcp_multiprocess_profile.rs:1252-1253 | reported texts are pairwise distinct and at most 32 |
| `JsonPointer.UnescapeEscape` | examples/mcp_multiprocess_profile.rs:1309-1311 | escaping a segment is inverted by unescaping (section 3 of RFC 6901), and an escaped segment holds no slash |
| `JsonPointer.EscapeParts` | examples/mcp_multiprocess_profile.rs:1309-1311 | escaping works character by character: a tilde becomes `~0`, a slash `~1`, anything else stays (section 3 of RFC 6901) |
| `JsonPointer.PointerParts` | examples/mcp_multiprocess_profile.rs:1275-1293 | the text of a pointer is that of its tokens, each escaped after a slash |
| `JsonPointer.DecodePointer` | examples/mcp_multiprocess_profile.rs:1275-1289 | decoding a rendered pointer gives its tokens back |
| `JsonPointer.PointerInjective` | examples/mcp_multiprocess_profile.rs:1309-1311 | different token lists have different pointer texts |
| `ResponseParity.ParityTally.Compare` | examples/mcp_multiprocess_profile.rs:1239-1263 | every comparison is counted, a mismatch exactly when the values are unequal, and the list grows by the recorded scoped paths |
| `ResponseParity.RecordedAppendsNew` | examples/mcp_multiprocess_profile.rs:1254-1262 | recording only appends, only paths of this comparison, never a duplicate; a path is missing only if the list stopped at the cap |
| `ResponseParity.RecordedIs` | examples/mcp_multiprocess_profile.rs:1254-1262 | exactly the paths that are neither in the list nor among the earlier ones of the report are appended, in order; a list below 32 takes only so many that it comes to 32 |
| `ResponseParity.WithinCapIff` | examples/mcp_multiprocess_profile.rs:1256-1260 | the list ends at 32 or fewer exactly when it was entered below 32, or at 32 with nothing new |
| `ResponseParity.CapIsExceeded` | examples/mcp_multiprocess_profile.rs:1258-1260 | entered at 32, one new path makes it 33: the equality test is stepped over |
| `ResponseParity.ComparisonKeepsListBounded` | examples/mcp_multiprocess_profile.rs:1239-1263 | entered duplicate-free and below the cap, a comparison keeps both |
| `JsonCanonical.CanonicalVersionsAgree` | examples/codex_host_receipt.rs:933-945 | the map-collecting form and the key-sorting form of the other harness are one |
| `JsonCanonical.CanonicalIffSame` | examples/mcp_multiprocess_profile.rs:1441-1455 | two values have one canonical form exactly when they are equal up to key order at every level |
| `JsonCanonical.CanonicalIsAscending` | examples/mcp_multiprocess_profile.rs:1444-1450 | every object of a canonical form has ascending keys |
| `JsonCanonical.CanonicalIdempotent` | examples/mcp_multiprocess_profile.rs:1441-1455 | canonicalising twice is canonicalising once |
| `JsonCanonical.Extensional` | examples/mcp_multiprocess_profile.rs:1446-1450 | a key-ordered object is determined by what its keys map to |
| `GeneratedKeys.RemoveGenerated` | examples/mcp_multiprocess_profile.rs:1457-1485 | terminates although it parses text embedded in text, and computes the recursive stripping |
| `GeneratedKeys.RemoveFromObject` | examples/mcp_multiprocess_profile.rs:1459-1469 | the object arm: the removals, then every remaining value |
| `GeneratedKeys.StripIsClean` | examples/mcp_multiprocess_profile.rs:1457-1485 | no generated key is left at any depth, inside embedded JSON text too |
| `GeneratedKeys.StripIdempotent` | examples/mcp_multiprocess_profile.rs:1457-1485 | stripping twice is stripping once |
| `GeneratedKeys.StripEqualIff` | examples/mcp_multiprocess_profile.rs:1457-1485 | two values get one result exactly when they differ only in generated keys, at any depth |
| `GeneratedKeys.StripKeepsShape` | examples/mcp_multiprocess_profile.rs:1476-1480 | stripping keeps key order and nesting depth, so that a stripped embedded value prints and reads back |
| `ReceiptLinks.SettlePayloads` | examples/mcp_multiprocess_profile.rs:1380-1404 | the id all text payloads agree on, or a conflict |
| `ReceiptLinks.AnonymiseLinks` | examples/mcp_multiprocess_profile.rs:1408-1432 | rewrites exactly the receipt links to the settled id |
| `ReceiptLinks.NormalizeNativeReceiptLinks` | examples/mcp_multiprocess_profile.rs:1367-1433 | both passes, with every early return |
| `ReceiptLinks.Normalize` | examples/mcp_multiprocess_profile.rs:1358-1365 | in this order the request id is dropped, links are rewritten and generated keys stripped; what that means entry by entry is stated by the rows of `ReceiptNormal` |
| `ReceiptNormal.IdentifiersGone` | examples/mcp_multiprocess_profile.rs:1359-1363 | a normalised response has no member "id", and none of the five generated keys |
| `ReceiptNormal.RequestIdIsIgnored` | examples/mcp_multiprocess_profile.rs:1359-1361 | two responses whose entries other than "id" are the same normalise alike, wherever an "id" stands and whatever it holds |
| `ReceiptNormal.EntriesKept` | examples/mcp_multiprocess_profile.rs:1358-1365 | every top-level entry but "id", "result" and the generated keys is still there, stripped of generated keys |
| `ReceiptNormal.ResultKept` | examples/mcp_multiprocess_profile.rs:1358-1365 | every entry of the result but its content is still there, stripped |
| `ReceiptNormal.ResultWithoutContent` | examples/mcp_multiprocess_profile.rs:1375-1380 | a result without content blocks is kept, stripped of generated keys |
| `ReceiptNormal.ContentNormalized` | examples/mcp_multiprocess_profile.rs:1408-1432 | block by block: a link whose URI is `leantoken://receipt/v1/` and the response's own native id gets the placeholder URI, every other block is kept, and then all are stripped |
| `ReceiptNormal.NativeIff` | examples/mcp_multiprocess_profile.rs:1424-1428 | a native id is `r` and 48 lower-case hexadecimal digits |
| `ReceiptNormal.SettlesIff` | examples/mcp_multiprocess_profile.rs:1367-1407 | a response settles on a native id exactly when it carries that id somewhere, in its structured content or in a text block, and no other one anywhere |
| `ReceiptNormal.OwnLinkIff` | examples/mcp_multiprocess_profile.rs:1408-1428 | a block is rewritten exactly when it is a link to the native id the response settles on |
| `ReceiptLinks.LinksPreserved` | examples/mcp_multiprocess_profile.rs:1396-1431 | a block changes only if it is a link to the one settled native id; with a conflict, or another id, its URI is kept |
| `ReceiptLinks.NormalizedLinks` | examples/mcp_multiprocess_profile.rs:1358-1431 | in a normalised response a receipt link has lost its id exactly when the payloads settle on that native id; otherwise its URI is as it was |
| `ReceiptRenaming.RenamingIsHiddenIff` | examples/mcp_multiprocess_profile.rs:1358-1433 | replacing the one native id everywhere is invisible exactly when the payload texts that carry it start with a brace, before and after, and no link names the new id already |
| `ReceiptRenaming.LinkToNewIdShows` | examples/mcp_multiprocess_profile.rs:1408-1431 | a response whose link names the new id already: its renaming shows |
| `ReceiptRenaming.RenamedIsSettled` | examples/mcp_multiprocess_profile.rs:1368-1407 | a consistent renaming settles on the new id |
| `ReceiptRepeat.SecondPassIff` | examples/mcp_multiprocess_profile.rs:1358-1433 | normalising a second time changes nothing exactly when no link is left to it: a link to a native id that the payload texts out of braces agree on, while a structured id or a text in braces stands against it |
| `ReceiptRepeat.SecondPassChanges` | examples/mcp_multiprocess_profile.rs:1391-1407 | a response whose link the first pass keeps, for a conflict of ids, and the second rewrites |
| `JsonText.ReadBack` | examples/mcp_multiprocess_profile.rs:1476-1479 | witness for the laws asked of the JSON text functions: what is written reads back, whatever follows it |
| `JsonText.MiniIsLawful` | examples/mcp_multiprocess_profile.rs:1476-1479 | the laws asked of the JSON text functions can be met |
| `JsonText.SpaceHidesTheBrace` | examples/mcp_multiprocess_profile.rs:1475-1476 | a payload text may start with a space: it parses, but stripping does not look into it |
| `AnsiSgr.ScanSequence` | examples/mcp_multiprocess_profile.rs:1608-1616 | how far an SGR sequence at the index reaches, if one starts there |
| `AnsiSgr.StripAnsiSgr` | examples/mcp_multiprocess_profile.rs:1602-1635 | the one-pass scanner leaves exactly the bytes that lie in no `ESC [`, bytes from `0` to `;`, `m`, and borrows exactly when no byte lies in one |
| `AnsiSgr.StripKeepsOutside` | examples/mcp_multiprocess_profile.rs:1616-1626 | exactly the bytes inside complete SGR sequences (section 8.3.117 of ECMA-48) are deleted; other controls stay |
| `AnsiSgr.LengthTells` | examples/mcp_multiprocess_profile.rs:1628-1634 | the length is kept exactly when no sequence occurs |
| `AnsiSgr.StripWellFormed` | examples/mcp_multiprocess_profile.rs:1617-1622 | well-formed UTF-8 (section 4 of RFC 3629) stays well formed |
| `Utf8.WellFormedIff` | examples/mcp_multiprocess_profile.rs:1617-1622 | bytes are well formed exactly when they are the UTF-8 encoding (section 3 of RFC 3629) of some character numbers |
| `Utf8.ByteLengthIs` | examples/context_utilization.rs:597-599 | the byte length of a text is the length of its UTF-8 encoding |
| `AnsiSgr.AsciiIsBoundary` | examples/mcp_multiprocess_profile.rs:1617-1620 | both ends of every copied slice are character boundaries |
| `AnsiSgr.IdempotentIff` | examples/mcp_multiprocess_profile.rs:1602-1635 | a second pass changes nothing exactly when a scan of the line that passes over its complete sequences never completes another one from the bytes around them |
| `AnsiSgr.NotIdempotent` | examples/mcp_multiprocess_profile.rs:1602-1635 | a well-formed line of six bytes that a second pass changes |
| `SessionFamily.GroupByParent` | examples/codex_multi_agent_receipt.rs:635-648 | candidates grouped by parent, each group sorted by path |
| `SessionFamily.TakeNext` | examples/codex_multi_agent_receipt.rs:657-665 | one turn of the queue keeps the search invariant and shrinks locators left, or else the queue |
| `SessionFamily.Enqueue` | examples/codex_multi_agent_receipt.rs:658-664 | all children of one parent join queue, seen set and family; refused exactly on a repeated id |
| `SessionFamily.ResolveFamily` | examples/codex_multi_agent_receipt.rs:631-667 | terminates; with unique ids it never fails; what it returns is the family of the root |
| `SessionFamily.ChildIsNew` | examples/codex_multi_agent_receipt.rs:659-661 | with unique ids the "cycle or duplicate" error cannot happen |
| `SessionDepths.FamilyIsReachable` | examples/codex_multi_agent_receipt.rs:631-667 | the family is the root and exactly the subagents whose parent chain reaches it, each once, parents first |
| `SessionDepths.ComputeDepths` | examples/codex_multi_agent_receipt.rs:1049-1071 | succeeds exactly when every parent comes earlier, and each depth is one more than the parent's |
| `SessionDepths.ChainLengthUnique` | examples/codex_multi_agent_receipt.rs:1066-1068 | a parent chain has one length |
| `SessionDepths.FamilyDepths` | examples/codex_multi_agent_receipt.rs:1049-1071 | on a resolved family it never fails, depths are parent-chain lengths and never decrease |
| `SessionDepths.ResolveWithDepths` | examples/codex_multi_agent_receipt.rs:325-334 | on unique session ids resolving and measuring succeed: after the root come exactly the subagents whose parent chain of subagents reaches it, each once, siblings in path order, each with the length of its chain, and depths never decrease |
| `ProviderUsage.ParsersAgree` | examples/codex_multi_agent_receipt.rs:60-77 | both usage parsers accept the same objects, read the same amounts, and the parts add up; the host's later subtraction never fails |
| `ProviderUsage.ParseIff` | examples/codex_multi_agent_receipt.rs:60-77 | a usage object is read as some amounts exactly when it holds them: all five fields, cached input within the input, reasoning within the output, and the total their sum |
| `ProviderUsage.MonotonicityCompared` | examples/codex_multi_agent_receipt.rs:102-109 | this monotonicity test is the host's test and two conditions more |
| `ProviderUsage.HostTestIsWeaker` | examples/codex_host_receipt.rs:655-668 | two snapshots the host accepts although uncached input fell |
| `ProviderUsage.FamilyUsage` | examples/codex_multi_agent_receipt.rs:345-347 | the checked sum succeeds exactly when all six exact sums fit u64, and then is that sum |
| `ProviderUsage.TotalIs` | examples/codex_multi_agent_receipt.rs:79-100 | each of the six amounts of the total is the sum of that amount over the threads |
| `ProviderUsage.FamilySumFitsIff` | examples/codex_multi_agent_receipt.rs:79-100 | it succeeds exactly when the input and output totals fit, in any thread order, and keeps the parts adding up |
| `ProviderUsage.TotalOfPermutation` | examples/codex_multi_agent_receipt.rs:345-347 | the sum does not depend on the order of the threads |
| `ThreadRollout.EventAccumulator.IngestEvent` | examples/codex_multi_agent_receipt.rs:847-934 | one event: the error, or the whole new accumulator state, which stays consistent |
| `ThreadRollout.EventAccumulator.OnTokenCount` | examples/codex_multi_agent_receipt.rs:897-917 | the usage arm: parse, monotonicity, first request and running total |
| `ThreadRollout.RunLive` | examples/codex_multi_agent_receipt.rs:725-769 | the loop over the live records equals the fold of its steps, errors included |
| `ThreadRollout.LiveStartIff` | examples/codex_multi_agent_receipt.rs:802-831 | the live start is the last task start at or before the first trigger marker |
| `ThreadRollout.HistoryIsIgnored` | examples/codex_multi_agent_receipt.rs:702-709 | other inherited history without trigger markers changes only record and byte counts |
| `ThreadRollout.RecordsAccountedFor` | examples/codex_multi_agent_receipt.rs:702-725 | session record, inherited and live records are all records |
| `ThreadRollout.RunKeepsLifecycle` | examples/codex_multi_agent_receipt.rs:847-934 | at every step turns started are completed, aborted or open; first usage, usage and request count go together, and the parts of the usage add up |
| `ThreadRollout.CountComparisonIsRedundant` | examples/codex_multi_agent_receipt.rs:770-772 | after the loop the counts disagree only if a turn is open |
| `ThreadRollout.FirstUsageCheckIsRedundant` | examples/codex_multi_agent_receipt.rs:773-791 | the check for a first request's usage rejects nothing: it comes with the usage |
| `ThreadRollout.RunUsageMonotonic` | examples/codex_multi_agent_receipt.rs:901-914 | cumulative usage never falls along a run |
| `ThreadTrace.TurnsAre` | examples/codex_multi_agent_receipt.rs:862-896 | turns are counted by the lines that start, complete and abort them, the duration is the sum over the completed ones, and a turn is open exactly when one started and has not ended since |
| `ThreadTrace.AnswerIs` | examples/codex_multi_agent_receipt.rs:876-881 | the answer is the one of the last completed turn that brings any |
| `ThreadTrace.UsageIs` | examples/codex_multi_agent_receipt.rs:897-917 | every token count with a total is a request; the usage is the last such total, and the first usage is the own usage of the first request, or its total |
| `ThreadTrace.ToolsAre` | examples/codex_multi_agent_receipt.rs:977-1026 | collaboration, shell and other calls are counted by what their lines name: the tool, its namespace, or the tools that a script mentions |
| `ThreadTrace.McpCallsAre` | examples/codex_multi_agent_receipt.rs:936-975 | MCP calls, failures, result, text and structured bytes and source tokens are the counts and sums over the lines that end such calls |
| `ThreadTrace.CallsAre` | examples/codex_multi_agent_receipt.rs:987-1006 | the collaboration calls are those of the collaborating lines, in order, with tool, id and, for a spawn, the turns to fork |
| `ThreadTrace.ChildrenAre` | examples/codex_multi_agent_receipt.rs:918-929 | a child stands under an event id exactly when a line starts it under that id |
| `ThreadTrace.ContextIs` | examples/codex_multi_agent_receipt.rs:733-768 | model and effort are those that turn contexts name; compactions are counted |
| `ThreadAccepted.RunsIff` | examples/codex_multi_agent_receipt.rs:725-769 | the loop goes through the live lines exactly when each may follow those before it, a condition on the lines alone |
| `ThreadAccepted.AcceptedIff` | examples/codex_multi_agent_receipt.rs:669-800 | a rollout is accepted exactly when its session record, its live start and its live lines fit; the result names the session, counts the inherited lines and bytes, and holds what the live lines add up to |
| `HostRollout.RolloutReader.OnEvent` | examples/codex_host_receipt.rs:436-511 | the event arm: the error, or the whole new state |
| `HostRollout.RolloutReader.OnTokenCount` | examples/codex_host_receipt.rs:468-479 | usage inside a turn, parsed and never lower than before |
| `HostRollout.RolloutReader.OnCallEnd` | examples/codex_host_receipt.rs:480-509 | a call that carries its result, under a new id |
| `HostRollout.RolloutReader.OnItem` | examples/codex_host_receipt.rs:512-561 | the response-item arm: calls, outputs and model responses |
| `HostRollout.RolloutReader.OnCall` | examples/codex_host_receipt.rs:521-540 | a call under a new id inside a turn |
| `HostRollout.RolloutReader.OnOutput` | examples/codex_host_receipt.rs:541-560 | the output of a known call: once, later than the call and in its turn |
| `HostRollout.RolloutReader.OnRecord` | examples/codex_host_receipt.rs:412-584 | one record: the error, or the whole new state, which stays consistent |
| `HostRollout.ParseRollout` | examples/codex_host_receipt.rs:391-617 | the loop and the final checks compute the fold of the steps |
| `HostRollout.RunKeeps` | examples/codex_host_receipt.rs:408-585 | at every line the turns add up, usage never fell, and the id index is a bijection onto the calls |
| `HostRolloutTrace.TurnsAre` | examples/codex_host_receipt.rs:436-467 | the open turn and the counts of turns and records are those of the lines, at every line |
| `HostRolloutTrace.ResponsesAre` | examples/codex_host_receipt.rs:514-520 | the noted model responses are exactly the function calls and model outputs inside an open turn, each with its line and turn, in order |
| `HostRolloutTrace.SnapshotsAre` | examples/codex_host_receipt.rs:468-479 | the snapshots are exactly the token counts that carry a total, each with its line, turn and amounts, in order |
| `HostRolloutTrace.CompactionsAre` | examples/codex_host_receipt.rs:562-582 | one compaction per compacted record, numbered in order, with the turn that is open or was the last, and windows that increase |
| `HostRolloutTrace.SessionIs` | examples/codex_host_receipt.rs:419-435 | host version and provider are those of a session record on the first line; the models are those that turn contexts name |
| `HostRolloutTrace.CallsAre` | examples/codex_host_receipt.rs:480-560 | the calls come in the order of their records, with the tools, ids and output values of the lines |
| `HostRolloutAccepted.RunsIff` | examples/codex_host_receipt.rs:408-585 | the loop goes through the lines exactly when each may follow those before it, a condition on the lines alone |
| `HostRolloutAccepted.AcceptedIff` | examples/codex_host_receipt.rs:391-617 | a rollout is accepted exactly when every line may follow those before it, the first is the session, every turn is closed and there is one, one model is named, and every call has its result |
| `HostRolloutProperties.LifecycleHolds` | examples/codex_host_receipt.rs:437-467 | at every step turns started = completed + aborted + (1 if open) |
| `HostRolloutProperties.LastUsageDominates` | examples/codex_host_receipt.rs:471-478 | the last usage snapshot dominates every earlier one in each component |
| `HostRolloutProperties.TrackedHolds` | examples/codex_host_receipt.rs:480-560 | at every step the id index is a bijection onto the calls, and each call's output is what the trace says |
| `HostRolloutProperties.AcceptedCalls` | examples/codex_host_receipt.rs:391-617 | in an accepted rollout each call has an output in its own turn, in its own record or in a later one, and no other output record for its id follows the call |
| `HostRolloutProperties.AcceptedOutputs` | examples/codex_host_receipt.rs:541-560 | after the record of a call exactly as many output records follow for its id as it needs (one, or none if it carries its result); in the whole trace there are exactly as many if and only if none precedes the call |
| `HostRolloutProperties.EarlyOutputIsAccepted` | examples/codex_host_receipt.rs:540-543 | an accepted rollout with the output of a call both before and after the call |
| `HostRolloutProperties.AcceptedCallRecords` | examples/codex_host_receipt.rs:491-540 | every call record of an accepted rollout is a call under its own id |
| `HostRolloutProperties.UnresolvedStays` | examples/codex_host_receipt.rs:541-560 | a call without output in a closed turn never gets one |
| `HostRolloutProperties.AbortUnresolvedRejects` | examples/codex_host_receipt.rs:462-467 | aborting a turn with an unresolved call leads to rejection, whatever follows |
| `HostRolloutProperties.AcceptedTurns` | examples/codex_host_receipt.rs:589-594 | after the loop the counts add up exactly when no turn is open |
| `McpTrace.IdTextInjective` | examples/codex_host_receipt.rs:888-894 | string and number ids (section 4 of JSON-RPC 2.0) never collide |
| `McpHandshake.ValidateHostOrder` | examples/codex_host_receipt.rs:685-757 | accepts exactly the traces with distinct server message ids in which one initialize request, a server message under its id, one initialized notification, one tools/list request, a server message under its id and then every tools/call come in order |
| `McpOpening.OrderedIff` | examples/codex_host_receipt.rs:685-757 | on the messages themselves: accepted are exactly the readable traces in which the server uses no id twice and the five messages come once each and in order, before every tool call |
| `McpOpening.ConformingIff` | examples/codex_host_receipt.rs:726-746 | a trace conforms exactly when it opens like that and both answers bring a result |
| `McpHandshake.ConformsIff` | examples/codex_host_receipt.rs:726-746 | an accepted trace holds the handshake of MCP 2025-06-18, Lifecycle, section "Initialization", answered with results, exactly when whatever the server sends under the id of the initialize or tools/list request is a result; a trace that holds it is accepted exactly when no two server messages share an id |
| `McpHandshake.RequestsPassForResponses` | examples/codex_host_receipt.rs:726-738 | an accepted trace in which the server sends nothing but requests |
| `McpHandshake.ErrorsPassForResults` | examples/codex_host_receipt.rs:726-746 | an accepted trace in which both answers are responses without a result |
| `McpHandshake.SharedIdIsRejected` | examples/codex_host_receipt.rs:726-730 | a rejected trace that holds the handshake, answered with results |
| `McpHandshake.CheckOrder` | examples/codex_host_receipt.rs:733-757 | the final checks decide the order from what the loop found |
| `McpCalls.CollectCalls` | examples/codex_host_receipt.rs:759-787 | requests in order and results by id; refused exactly on an unsound request or a repeated result id |
| `McpCalls.MatchResults` | examples/codex_host_receipt.rs:788-822 | each request takes its result once; refused exactly on repeated request ids, missing or malformed results |
| `McpCalls.ExtractCalls` | examples/codex_host_receipt.rs:759-822 | accepts exactly the traces with sound, distinct, answered requests; one call per request, in order, with the one result of its id |
| `McpTerms.ExtractableIff` | examples/codex_host_receipt.rs:759-822 | on the messages themselves: a tool call needs an id, a safe tool name and a proper hash, if any, and one proper result sent under its id; neither calls nor results share an id |
| `McpTerms.ExtractionIs` | examples/codex_host_receipt.rs:788-822 | one call per tool-call message, in order, with its tool, its hash and the result sent under its id |
| `McpCalls.CorrelateCalls` | examples/codex_host_receipt.rs:824-877 | accepts exactly equal tools and outputs, call by call, and counts follow-ups on known hashes |
| `McpTerms.CorrelatesIff` | examples/codex_host_receipt.rs:846-856 | calls correlate exactly when, one by one, they name the same tool and their outputs are equal up to key order |
| `McpCalls.CallReceipts` | examples/codex_host_receipt.rs:279-324 | the receipts of all calls; refused exactly when an output is not followed in its turn |
| `McpCalls.FlagsCountFollowUps` | examples/codex_host_receipt.rs:289-304 | the flags of the receipts add up to the follow-ups of the other loop |
| `McpCalls.CorrelateWithReceipts` | examples/codex_host_receipt.rs:857-861 | the aggregate count equals the number of flagged receipts and of calls whose expected hash was seen before |
| `HostReceipts.FollowedIff` | examples/codex_host_receipt.rs:307-324 | the final check passes exactly when after the line of every result, in the turn of the call, come a function call or model output and a token count with a total |
| `HostReceipts.JoinSession` | examples/codex_host_receipt.rs:236-324 | rollout and trace are joined exactly when the lines are accepted, some usage is reported, every result is followed, the trace opens in order and its calls can be extracted and agree one by one |
| `RepositoryPath.CollectComponents` | examples/context_utilization.rs:604-613 | the components that stay, or an escape from the repository |
| `RepositoryPath.NormalizeIdempotent` | examples/context_utilization.rs:596-618 | a normal form is its own normal form, within the byte bound |
| `RepositoryPath.PartsIff` | examples/context_utilization.rs:605-607 | the parts of a path are the one list of strings without slashes that slashes join to it |
| `RepositoryPath.NormalizeIff` | examples/context_utilization.rs:596-618 | a path is accepted exactly when it has at most 4096 bytes, is relative, has no part `..` and some part that is neither empty nor `.`; the normal form joins those parts in order |
| `ContextArtifacts.ValidateArtifacts` | examples/context_utilization.rs:224-266 | accepts exactly matching artifacts with increasing sequences, distinct ids, valid ranges and all bounds kept |
| `ContextArtifacts.ValidTraceIsKeyed` | examples/context_utilization.rs:268-282 | after validation no path is refused later |
| `ContextArtifacts.ValidTraceIsExact` | examples/context_utilization.rs:290-294 | on a validated trace the maps by call id find the one call of that id |
| `ContextValidity.ValidTraceIff` | examples/context_utilization.rs:224-282 | the trace is validated exactly when it is sound, a condition on its calls and ranges alone |
| `ContextArtifacts.StrayIsCounted` | examples/context_utilization.rs:534-543 | a validated trace with a call that no event made, whose range sets the exact-reread flag |
| `ContextSignals.TrajectoryCalls` | examples/context_utilization.rs:469-514 | accepts exactly the trajectories whose calls resolve to distinct calls of the trace, each kept under that call |
| `ContextTerms.ResolveIff` | examples/context_utilization.rs:516-532 | an event stands for the call of the trace under its own id, else under the id without the prefix `prewalk:`, else under the id with it |
| `ContextTerms.HashesIff` | examples/context_utilization.rs:545-556 | the argument hashes of an event are exactly the known hashes that are texts, and the expected hash |
| `ContextTerms.TrajectoryIff` | examples/context_utilization.rs:469-514 | a trajectory is accepted exactly when each completed call has an id and a tool and stands for a call of the trace, no two for the same one |
| `ContextTerms.CallsAre` | examples/context_utilization.rs:487-511 | the calls are what the events say, each under the call it stands for, with the sequence of the last call of that id |
| `ContextTerms.HashLaterIff` | examples/context_utilization.rs:387-391 | a hash is an input later exactly when some retrieval event that stands for a later call of the trace names it as a known or expected hash |
| `ContextTerms.RetrievedIff` | examples/context_utilization.rs:321-326 | the retrieval calls are those that retrieval events stand for |
| `ContextTerms.StrayIff` | examples/context_utilization.rs:534-543 | a stray is a call of the trace under a prefixed id that no event stands for, beside a retrieval event that stands for the call without the prefix |
| `ContextTerms.OverlapsIff` | examples/context_utilization.rs:392-406 | ranges overlap exactly when they share a line |
| `ContextSignals.FollowUpIffReread` | examples/context_utilization.rs:400-411 | for a valid range the first follow-up is present exactly when a reread flag is set |
| `ContextSignals.IndexedIsRetrievalIff` | examples/context_utilization.rs:321-326 | the calls whose ranges are indexed are the retrieval calls and the strays: exactly the retrieval calls if and only if no unmatched prefixed call stands beside a matched retrieval call |
| `ContextSignals.DescribesIff` | examples/context_utilization.rs:377-426 | a row says what a scan of the retrieval calls says exactly when every stray range is outdone by one of a retrieval call; without strays it always does |
| `ContextIndex.BuildRangeIndex` | examples/context_utilization.rs:320-333 | the index groups the ranges of the indexed calls by generation and path; refused exactly on a bad path |
| `ContextIndex.BuildHashIndex` | examples/context_utilization.rs:334-347 | the index groups the hash inputs; refused exactly beyond the bound |
| `ContextIndex.LaterEntries` | examples/context_utilization.rs:379-384 | the index after a call holds exactly what a scan of the later indexed calls finds |
| `ContextIndex.RereadFlags` | examples/context_utilization.rs:392-399 | both reread flags equal a scan of all later indexed calls |
| `ContextIndex.FirstFollowUpFlag` | examples/context_utilization.rs:400-406 | the first follow-up is the least sequence of a later overlapping range |
| `ContextIndex.UtilizationDescribes` | examples/context_utilization.rs:377-426 | a row built from the indexes says what the scan of the indexed calls says |
| `ContextReport.DescribeRanges` | examples/context_utilization.rs:364-428 | one row for every range a context call returned |
| `ContextReport.SortRowsSorts` | examples/context_utilization.rs:429-444 | sorting keeps the rows and puts them in tuple order |
| `ContextReport.ReceiptFollowUps` | examples/context_utilization.rs:348-376 | exactly the later retrieval calls that were given a context call's receipt |
| `ContextEvents.ContextIs` | examples/context_utilization.rs:291-312 | the context calls are those that context events stand for, by ascending id, each with what its event says and the last call of the trace under that id |
| `ContextEvents.RowSaysIff` | examples/context_utilization.rs:377-426 | a row says what it says of the events and the trace alone: which later ranges and hashes make its flags |
| `ContextEvents.ReceiptIff` | examples/context_utilization.rs:348-376 | a call is a receipt follow-up exactly when a retrieval event uses the receipt that an earlier context event brought |
| `ContextEvents.AfterContextIff` | examples/context_utilization.rs:358-363 | a call is a retrieval follow-up exactly when a retrieval event stands for it and a context event for an earlier one |
| `ContextSummary.CountIs` | examples/context_utilization.rs:571-594 | a count is the number of the rows kept, the sum of their known tokens, and whether all are known |
| `ContextSummary.CountSignal` | examples/context_utilization.rs:571-594 | count, token sum and completeness of a selection; fails exactly when the sum leaves u64 |
| `ContextSummary.NoSignalIsComplement` | examples/context_utilization.rs:408-411 | rows without a signal and rows with one add up, in number and in tokens |
| `ContextSummary.RetrievalFollowUps` | examples/context_utilization.rs:358-363 | exactly the retrieval calls after the first context call |
| `ContextSummary.Classify` | examples/context_utilization.rs:284-467 | fails exactly on trajectories that do not stand for the trace, bad paths and exceeded bounds; otherwise there is one row per range that a context call returned, in tuple order, each saying what the events and the trace say of it, and the summary counts them; without strays the rows agree with a scan of the retrieval calls |
| `SuiteLoad.LoadRuns` | examples/codex_multi_agent_suite.rs:366-495 | accepts exactly as many sound files as scheduled, with distinct keys and indices in range; run number k holds, field by field, what the file with index k and its receipt say |
| `SuiteLoad.RunIs` | examples/codex_multi_agent_suite.rs:384-476 | a file is read exactly when it is sound, and then the run has its key and index, and total, uncached and child input and success of its receipt |
| `SuiteLoad.ManifestIff` | examples/codex_multi_agent_suite.rs:338-363 | a manifest is valid exactly when it has at least three tasks, five repetitions, distinct arms and tasks, and its three roles are arms |
| `SuiteRuns.AllScheduled` | examples/codex_multi_agent_suite.rs:383-424 | as many distinct scheduled keys as the schedule has are the whole schedule |
| `SuiteRuns.Numbered` | examples/codex_multi_agent_suite.rs:478-482 | in schedule order the indices are 1 to n |
| `SuiteRuns.FullSetIsDistinct` | examples/codex_multi_agent_suite.rs:338-363 | a list as large as its set has no repetition: what the manifest check relies on |
| `SuiteCompare.PairRuns` | examples/codex_multi_agent_suite.rs:743-763 | pairs every baseline run with the candidate of its task and repetition; refused exactly when arms are incomplete or a partner is missing |
| `SuiteCompare.CompleteIsPairable` | examples/codex_multi_agent_suite.rs:752-763 | on an accepted schedule no two arms are ever incomplete or unpaired |
| `SuiteFiles.LoadAndCompare` | examples/codex_multi_agent_suite.rs:742-832 | on any two arms loading and comparing succeed exactly on sound files; totals, overall and per task, are the sums of the total input of the receipts of the two arms, the tasks are those of the baseline files in order, and each pair is read from two files of one task and repetition |
| `SuiteCompare.TasksAddUp` | examples/codex_multi_agent_suite.rs:798-832 | per-task totals add up to the overall totals |
| `SuiteCompare.Totals` | examples/codex_multi_agent_suite.rs:765-832 | overall and per-task totals of the pairs |
| `SuiteCompare.OverallIsWeightedMean` | examples/codex_multi_agent_suite.rs:1067-1069 | overall savings are the baseline-weighted mean of the paired savings, so they lie between their least and greatest |
| `XorShift.StepInverse` | examples/codex_multi_agent_suite.rs:1142-1146 | the state step is a bijection on 64-bit words, with its inverse |
| `XorShift.StepInjective` | examples/codex_multi_agent_suite.rs:1142-1146 | different states step to different states |
| `XorShift.NeverZero` | examples/codex_multi_agent_suite.rs:1132-1146 | from any seed no reachable state is zero |
| `XorShift.XorShift64.Index` | examples/codex_multi_agent_suite.rs:1141-1148 | one step, and the new word reduced below the bound |
| `Bootstrap.GroupsHoldPairs` | examples/codex_multi_agent_suite.rs:1099-1105 | the groups are non-empty and hold nothing but pairs |
| `Bootstrap.DrawGroup` | examples/codex_multi_agent_suite.rs:1115-1119 | as many draws from a group as it has pairs, each in bounds |
| `Bootstrap.DrawSample` | examples/codex_multi_agent_suite.rs:1111-1121 | one stratified sample, and the generator state after it |
| `Bootstrap.SamplesBounded` | examples/codex_multi_agent_suite.rs:1111-1122 | every sample lies between the least and the greatest paired savings |
| `Bootstrap.SortRealsSorts` | examples/codex_multi_agent_suite.rs:1123 | sorting keeps the samples and orders them |
| `BootstrapDraws.DrawnPairs` | examples/codex_multi_agent_suite.rs:1115-1119 | each draw from a group takes the pair at the next state word, reduced by the size of the group |
| `BootstrapDraws.GroupsAre` | examples/codex_multi_agent_suite.rs:1099-1105 | one group for every task, tasks in ascending order, each with the pairs of that task in order |
| `BootstrapDraws.DrawAllIsSample` | examples/codex_multi_agent_suite.rs:1112-1121 | a sample is the savings of the draws, group by group, as many as the group has pairs, each group going on with the state word the one before left |
| `BootstrapDraws.SamplesAreDrawn` | examples/codex_multi_agent_suite.rs:1109-1122 | the samples are drawn one after the other from the seed word, or from the constant if it is zero |
| `BootstrapDraws.BootstrapInterval` | examples/codex_multi_agent_suite.rs:1098-1128 | the 250th and the 9,750th of 10,000 samples drawn like that, in ascending order; both lie within the paired savings |
| `WireRecorder.Recorder.Record` | examples/mcp_wire_capture.rs:108-144 | appends the event with the next number and publishes the whole list |
| `WireRecorder.Recorder.Persist` | examples/mcp_wire_capture.rs:146-178 | publishes the whole list; the sort changes nothing |
| `WireCut.CutIff` | examples/mcp_wire_capture.rs:236-243 | `Lines` is the one list of non-empty pieces that join to the input, with a line feed at the end of every piece but perhaps the last and nowhere else |
| `WireCut.TrimmedIff` | examples/mcp_wire_capture.rs:242-244 | the trimmed text is the one prefix that does not end in a carriage return or line feed and lacks nothing else |
| `WireCut.SaidIff` | examples/mcp_wire_capture.rs:242-248 | the messages of lines are their trimmed texts, in order, without those of white space alone |
| `WireRecorder.CopyLines` | examples/mcp_wire_capture.rs:228-250 | for a cut of the input into lines and their messages: forwards the bytes read and records the messages in order, and nothing else |
| `WireProxyProofs.RunKeepsInv` | examples/mcp_wire_capture.rs:108-250 | on every interleaving of the two proxy threads and the main thread the invariant holds |
| `WireProxyProofs.LogIsContiguous` | examples/mcp_wire_capture.rs:116-151 | at every moment the numbers are 0 to n-1 in list order, the sort changes nothing, and the published file is a complete prefix of the log |
| `WireProxyProofs.NothingIsLost` | examples/mcp_wire_capture.rs:141-177 | along a run the log and the published file only grow |
| `WireProxyProofs.ReturnedIsPublished` | examples/mcp_wire_capture.rs:108-144 | once record returned, its event is in every later file |
| `WireProxyProofs.DirectionsInOrder` | examples/mcp_wire_capture.rs:228-250 | for the cut of each input into lines: the events of each direction are a prefix of the messages of its lines, in order, its forwarded bytes a prefix of its input, and both are whole at the end of input |
| `WireProxyProofs.CaughtUpBetweenLines` | examples/mcp_wire_capture.rs:235-248 | between lines a thread has read the first lines of the cut, forwarded exactly those and recorded exactly their messages |
| `WireProgress.NoDeadlock` | examples/mcp_wire_capture.rs:116-149 | in every reachable state all threads have ended if and only if no thread can take a step that changes the state: waiting for the lock never blocks everyone |
| `WireProgress.ChangesAreBounded` | examples/mcp_wire_capture.rs:228-250 | no run, however long and whatever fails in it, changes the state more often than 11 times for every line and 8 times |
| `WireProgress.RunCanFinish` | examples/mcp_wire_capture.rs:108-250 | every reachable state can be brought to an end at which each proxy thread that had not failed has recorded and forwarded all of its input |
| `WireSequential.LoneThreadCopies` | examples/mcp_wire_capture.rs:228-250 | on every interleaving in which one proxy thread alone has input, its end leaves the log, the published file and the forwarded bytes that the sequential loop leaves |

## Left out

- GeneratedKeys.RemoveGenerated: edits a value by returning a new one; the update in place of a `&mut Value` is not modelled.
- ReceiptLinks.NormalizeNativeReceiptLinks: likewise returns the edited response.
- GeneratedKeys.StripEqualIff: rests on the laws of `JsonCodec.Lawful` for the JSON text functions; the text grammar of `serde_json` itself, its float rounding and its printing failures are not modelled.
- Json.Same: a number that is not an integer is identified with its printed text, so that `-0.0` and `0.0` count as different.
- McpHandshake.ConformsIff: of a message the check reads method, id and result; the `jsonrpc` member, an `error` beside a result and the contents of the results are not modelled.
- McpCalls.CorrelateCalls: compares canonical forms where the harness compares their BLAKE3 hashes; hash collisions are not modelled.
- HostRollout.ParseRollout: takes parsed records; a required string that is missing, blank or unsafe is `None`, and the text of errors is a constructor.
- ThreadRollout.RunLive: takes parsed records with their byte lengths; the 64 MiB file bound, source hashes and the multi-agent version are left out.
- SessionFamily.ResolveFamily: takes locators; discovery on disk and its duplicate check are the hypothesis of unique ids.
- SessionDepths.ResolveWithDepths: assumes fewer than 2^64 - 1 sessions.
- SuiteLoad.LoadRuns: takes file contents; the consistency record (versions, models, hashes, contract violations) is left out.
- SuiteCompare.Totals: amounts are unbounded, so the wrap-around of a u64 `sum` in release builds is not modelled; the sort of the pairs, medians, means and success rates are left out.
- SuiteCompare.OverallIsWeightedMean: over reals, for positive baselines; rounding and the NaN of a zero baseline are not modelled.
- BootstrapDraws.BootstrapInterval: over reals and for positive baselines; the seed is a parameter instead of a BLAKE3 digest.
- ContextSummary.Classify: paths, hashes and ids are texts; binding data, token counting and the report file are left out.
- RepositoryPath.NormalizeIdempotent: Unix paths only; Windows prefixes and paths that are not Unicode are not modelled.
- WireRecorder.Recorder.Record: timestamps, the metadata of the trace, its content hash and the wrap-around of the u64 counter are left out.
- WireProxyProofs.RunKeepsInv: a write and a rename either happen or fail the thread; lock poisoning and the remove-then-rename branch for Windows are left out, and lossy decoding is any function from lines to texts.
- WireProgress.RunCanFinish: inputs end, and every thread may run to its end; that the main thread first waits for the child and the server thread, and that the end of the process cuts the client thread off, is left out.
- Process control, `/proc` sampling, SQLite and git queries, command lines, SVG and Markdown rendering: no provable content.
- The tokenizer and the Wilson interval: foreign code and square roots.
- Label, hex and threshold validators elsewhere in the harnesses: flat conjunctions.
