# Auditor bookkeeping, modelled in Dafny

The auditor package audits Solidity projects with a language model and scores the results against ground truth. Two pieces of bookkeeping in it can be stated exactly. This project models both and proves properties of them.

- Benchmark scoring (`bench.ts`). `benchProject` shows each agent finding to a judge and keeps the truthy ids the judge answers with, in order and with duplicates. The ground-truth findings whose id was never matched are reported as missed. `bench` scores every project in directory order and collects a summary entry per project: its name and the two lengths of its report.
- Audit aggregation (`audit.ts`). `auditProject` does the following:
  - reads a project's scope file and keeps the lines that contain `.sol`;
  - audits the first of those files;
  - tags every finding with the file's contract name: the last `/` segment of the path, with the first `.sol` removed;
  - sums the optional usage counters.
  
  A file whose audit throws is skipped. `auditFile` skips any contract whose text contains `interface `. `auditProjects` audits the first two projects and adds up their token counts; a project that throws adds nothing.

These are the modules, one per concern:

- `Wrappers` holds the optional value (`undefined`/`null`) and `??`.
- `Seqs` holds `Array.prototype.filter`, `map` and `slice(0, n)`.
- `Strings` holds `includes`, `indexOf`, `replace` with a string pattern and `split` for a one-character separator. It also holds `join`, which the code never calls: it is there only as the round-trip partner of `split`.
- `Bench` models `bench.ts`.
- `Audit` models `audit.ts`.

The four loops keep the source's imperative form.
- `BenchProject`, `Bench`, `AuditBatch` and `AuditEach` are methods with loop invariants.
- Each method is proved equal to a fold function: `MatchedIds`/`BenchProjectOf`, `BenchAll`, `AuditFiles` and `AuditOutcomes`/`BatchTotal` respectively.
- The properties of those functions are proved as lemmas.

Some behaviour sits outside the model and enters as parameters:
- The judge: `Bench.Judge` maps the ground truth and one agent finding to `Judged(id)` or `JudgeFailed`.
- The audit service.
- The file reads: `Audit.Env` for `audit.ts` and the two reads held in `Bench.BenchInput` for `benchProject`, with `None` for a read that throws.

Two consequences of the code are worth stating:
- Nothing in `benchProject` or `bench` catches an error. A judge call that throws, or a ground-truth or agent-findings read that throws, aborts `benchProject`, and through it `bench`, and no summary is written. That is the `None` of `MatchedIds`, `BenchProjectOf`, `ScoreUnder` and `BenchAll`.
- `auditProject` audits only `filesInScope.slice(0, 1)`. With a scope naming an interface and then an implementation, the project therefore yields no findings at all (`ScenarioInterfaceFirst`): the implementation is never audited.

Rows of the table marked "(helper)" are unfolding steps used by the other proofs; rows marked "(definition)" name the function that models the cited code, whose properties are the lemmas named in that row.

## Model

| member | source | states |
|---|---|---|
| Seqs.Filter | packages/auditor/src/bench.ts:83-88 | the kept elements are exactly the elements of the input that pass the callback, and there are no more of them than inputs |
| Seqs.FilterAppend | packages/auditor/src/audit.ts:116 | filtering distributes over concatenation, so the kept elements keep their input order |
| Seqs.FilterKeepsAll | packages/auditor/src/bench.ts:83-88 | a filter that every element passes returns its input unchanged |
| Seqs.FilterCongruent | packages/auditor/src/bench.ts:83-88 | two callbacks that agree on the elements filter alike |
| Seqs.Take | packages/auditor/src/audit.ts:131 | (definition) `slice(0, n)`: the whole sequence when it has at most `n` elements, otherwise its first `n`; see `Audit.AuditProjectFirstFileOnly` and `Audit.AuditProjects` |
| Seqs.Map | packages/auditor/src/audit.ts:169-180 | (definition) the outcomes of visiting each element in order; see `Seqs.MapEntries` |
| Seqs.MapEntries | packages/auditor/src/audit.ts:169-180 | one result per element, each the image of the element at the same position |
| Seqs.MapStep | packages/auditor/src/audit.ts:169-180 | (helper) mapping one more element appends its image |
| Wrappers.Option.GetOr | packages/auditor/src/audit.ts:143-144 | (definition) `x ?? d`: the value when present, `d` when absent; see `Audit.ContributionOf` |
| Strings.Contains | packages/auditor/src/audit.ts:58 | (definition) `includes`: some position holds an occurrence; see `Strings.IndexOf` and `Audit.InterfaceMarkerAnywhere` |
| Strings.ReplaceFirst | packages/auditor/src/audit.ts:46 | (definition) `replace` with a string pattern: the first occurrence, found by `IndexOf`, replaced, and the text unchanged when there is none; see `Audit.ContractNameOfSolidityFile` and `Audit.ContractNameWithoutExtension` |
| Strings.IndexOf | packages/auditor/src/audit.ts:133 | the result is present iff the pattern occurs; it is an occurrence, and no occurrence starts earlier |
| Strings.FirstOccurrence | packages/auditor/src/audit.ts:133 | an occurrence with none before it is the position `indexOf` returns |
| Strings.Split | packages/auditor/src/audit.ts:116 | split yields at least one piece and no piece contains the separator |
| Strings.JoinSplit | packages/auditor/src/audit.ts:116 | joining the pieces with the separator gives back the text |
| Strings.SplitJoin | packages/auditor/src/audit.ts:116 | splitting the join of separator-free pieces gives back the pieces |
| Strings.SplitAppend | packages/auditor/src/audit.ts:116 | a separator between two texts ends the pieces of the first; the pieces of the second follow |
| Strings.SplitWithoutSeparator | packages/auditor/src/audit.ts:133 | text without the separator is a single piece |
| Bench.Truthy | packages/auditor/src/bench.ts:78 | (definition) `if (matchedFinding.id)`: `null` and `0` are falsy; see `Bench.MatchedIdsContents` and `Bench.FalsyVerdictIgnored` |
| Bench.Recorded | packages/auditor/src/bench.ts:78-80 | (definition) what one verdict pushes: its id when truthy, nothing otherwise; see `Bench.MatchedIdsContents` |
| Bench.MatchedIds | packages/auditor/src/bench.ts:71-81 | (definition) the judging loop as a fold: None when a judge call throws, otherwise the pushed ids; see `Bench.MatchedIdsFailure`, `Bench.MatchedIdsAppend` and `Bench.MatchedIdsContents` |
| Bench.IsMatched | packages/auditor/src/bench.ts:85-87 | (definition) `matchedFindings.some(m => m === id)`, never true of a missing id; see `Bench.Missed` and `Bench.UnmatchableAlwaysMissed` |
| Bench.BenchProjectOf | packages/auditor/src/bench.ts:71-93 | (definition) one project's report: None when judging throws, otherwise the matched ids and the missed filter; see `Bench.BenchProject`, `Bench.NoAgentFindings` and `Bench.ScoreAccounting` |
| Bench.Missed | packages/auditor/src/bench.ts:83-88 | the missed findings are exactly the ground-truth findings whose id equals no matched id, and there are at most as many as ground-truth findings |
| Bench.BenchProject | packages/auditor/src/bench.ts:71-93 | the judging loop and the missed filter compute `BenchProjectOf`: None when a judge call throws, otherwise the matched ids and those missed |
| Bench.MatchedIdsStaysFailed | packages/auditor/src/bench.ts:72-81 | once a judge call has thrown, further findings do not bring the project back |
| Bench.MatchedIdsFailure | packages/auditor/src/bench.ts:72-81 | the judging loop fails iff some judge call on an agent finding throws |
| Bench.MatchedIdsAppend | packages/auditor/src/bench.ts:72-81 | judging `a` then `b` succeeds iff both do, and its ids are those of `a` followed by those of `b` (visiting order, duplicates kept) |
| Bench.MatchedIdsContents | packages/auditor/src/bench.ts:71-81 | at most one id per agent finding; 0 is never recorded; every recorded id is some finding's answer; every truthy answer is recorded |
| Bench.FalsyVerdictIgnored | packages/auditor/src/bench.ts:78-80 | an agent finding judged `null` or `0` can be removed without changing the result |
| Bench.NoAgentFindings | packages/auditor/src/bench.ts:71-88 | with no agent findings nothing is matched and the whole ground truth is missed |
| Bench.MissedAppend | packages/auditor/src/bench.ts:83-88 | missed findings keep ground-truth order: the filter distributes over concatenation |
| Bench.MissedIgnoresDuplicates | packages/auditor/src/bench.ts:85-87 | the missed findings depend only on which ids were matched, not on how often or in which order |
| Bench.UnmatchableAlwaysMissed | packages/auditor/src/bench.ts:86 | a ground-truth finding without an id, or with id 0, is always missed |
| Bench.MissedCons | packages/auditor/src/bench.ts:83-88 | (helper) the filter decides the first ground-truth finding first and then the rest |
| Bench.IdsOfCons | packages/auditor/src/bench.ts:86 | (helper) the ground-truth ids of `[c] + rest` are `c`'s id and those of `rest` |
| Bench.WellFormedTail | packages/auditor/src/bench.ts:86 | ground truth with unique ids keeps them without its first entry, whose id the rest lacks |
| Bench.MissedCount | packages/auditor/src/bench.ts:83-88 | on ground truth with unique ids, the missed count plus the number of distinct matched ground-truth ids is the ground-truth size |
| Bench.ScoreAccounting | packages/auditor/src/bench.ts:71-93 | with a judge that answers only ground-truth ids, every matched id names a ground-truth entry, and distinct matched ids plus missed findings account for the whole ground truth |
| Bench.ScenarioOneMatchOneMiss | packages/auditor/src/bench.ts:71-93 | ground truth 1 and 2, one finding judged 1 and one judged null: matched `[1]`, missed the second entry |
| Bench.ScenarioDuplicateMatch | packages/auditor/src/bench.ts:78-80 | two findings judged to match the same id are both recorded, so the matched count can exceed the ground truth it covers |
| Bench.ScoreUnder | packages/auditor/src/bench.ts:62-93 | (definition) `benchProject` on a project: None when either read or a judge call throws, otherwise its report; see `Bench.UnreadableProjectEndsRun` |
| Bench.BenchAll | packages/auditor/src/bench.ts:111-128 | (definition) the loop of `bench` as a fold over any scorer; see `Bench.BenchAllSucceeds`, `Bench.BenchAllReports`, `Bench.BenchAllSummaries` and `Bench.BenchAllFirstFailure` |
| Bench.Bench | packages/auditor/src/bench.ts:116-128 | the loop over projects computes `BenchAll` under the scorer `ScoreUnder`, the two reads and the judging of `benchProject`, stopping at the first project where either throws |
| Bench.BenchAllStaysFailed | packages/auditor/src/bench.ts:116-128 | once a project has thrown, later projects are neither scored nor summarised |
| Bench.BenchAllOutcome | packages/auditor/src/bench.ts:116-128 | (helper) one more project: the run succeeds iff the run before it did and that project was scored; a failed run is unchanged by it |
| Bench.BenchAllSucceeds | packages/auditor/src/bench.ts:116-128 | a batch run produces a summary iff every project is scored without a throw |
| Bench.AllScoredStep | packages/auditor/src/bench.ts:116-128 | (helper) a batch is all scored iff all but its last project are and the last one is |
| Bench.BenchAllStep | packages/auditor/src/bench.ts:116-128 | (helper) a successful run extends the run before its last project by that project's report and summary entry |
| Bench.BenchAllReports | packages/auditor/src/bench.ts:116-121 | a successful run wrote one report per project, in directory order, each that project's own |
| Bench.BenchAllSummaries | packages/auditor/src/bench.ts:123-127 | the summary has one entry per project, in directory order, holding the name and the lengths of that project's matched and missed findings |
| Bench.BenchAllFirstFailure | packages/auditor/src/bench.ts:116-128 | when project `k` is the first to throw, there is no summary and exactly the reports of the first `k` projects were written |
| Bench.UnreadableProjectEndsRun | packages/auditor/src/bench.ts:62-69 | a project whose ground truth or agent findings cannot be read ends the run with no summary and only the reports of the projects before it |
| Audit.FilesInScope | packages/auditor/src/audit.ts:116 | every file in scope is a scope line containing `.sol`, and every such line is in scope |
| Audit.IsSolidityPath | packages/auditor/src/audit.ts:116 | (definition) `item.includes('.sol')`; see `Audit.FilesInScope` |
| Audit.FilesInScopeAppend | packages/auditor/src/audit.ts:116 | scope files put together line by line keep their in-scope files in order |
| Audit.LastSegment | packages/auditor/src/audit.ts:133 | the last path segment contains no `/` |
| Audit.RemoveFirstKeepsOut | packages/auditor/src/audit.ts:133 | removing the first `.sol` adds no character to the segment |
| Audit.ContractName | packages/auditor/src/audit.ts:133 | a contract name contains no `/` |
| Audit.ContractNameIgnoresDirectory | packages/auditor/src/audit.ts:133 | only the last segment of the path bears on the contract name |
| Audit.FirstSolIsExtension | packages/auditor/src/audit.ts:133 | in `Name.sol` with no `.sol` inside `Name`, the first `.sol` is the extension |
| Audit.NoSolBeforeExtension | packages/auditor/src/audit.ts:133 | no occurrence of `.sol` straddles `Name` and the appended extension |
| Audit.ContractNameOfSolidityFile | packages/auditor/src/audit.ts:46 | the contract name of `Name.sol` and of `dir/Name.sol` is `Name` |
| Audit.ContractNameWithoutExtension | packages/auditor/src/audit.ts:133 | a last segment without `.sol` is the contract name unchanged |
| Audit.InterfaceMarkerAnywhere | packages/auditor/src/audit.ts:58 | the check is textual: `interface ` anywhere in the text, in a comment as well, triggers it |
| Audit.LooksLikeInterface | packages/auditor/src/audit.ts:58 | (definition) `contractContent.includes('interface ')`; see `Audit.InterfaceMarkerAnywhere` |
| Audit.AuditFile | packages/auditor/src/audit.ts:34-101 | (definition) `auditFile`: a failed contract read throws, an interface gives no findings and no usage, otherwise the service's answer; see `Audit.InterfaceNotAudited` |
| Audit.InterfaceNotAudited | packages/auditor/src/audit.ts:58-61 | a contract that looks like an interface yields no findings and no usage, whatever the audit service would have answered |
| Audit.Tag | packages/auditor/src/audit.ts:137-140 | a tagged finding carries the contract name and the service's fields unchanged |
| Audit.TagAll | packages/auditor/src/audit.ts:136-141 | tagging keeps the number and order of findings, each carrying the contract name and otherwise unchanged |
| Audit.UsageTokens | packages/auditor/src/audit.ts:143-144 | (definition) `usage?.promptTokens ?? 0` and `usage?.completionTokens ?? 0`; see `Audit.ContributionTokensNonNegative` |
| Audit.FileContribution | packages/auditor/src/audit.ts:132-147 | (definition) what one file adds: nothing when `auditFile` throws, otherwise its tagged findings and usage; see `Audit.ContributionOf` and `Audit.AuditFilesSkipsFailure` |
| Audit.AuditFiles | packages/auditor/src/audit.ts:131-147 | (definition) the per-file loop as a fold; see `Audit.AuditBatch`, `Audit.AuditFilesAppend` and `Audit.AuditFilesFindings` |
| Audit.AuditProjectOf | packages/auditor/src/audit.ts:112-158 | (definition) `auditProject`: None when the scope read throws, otherwise the fold over the first in-scope file; see `Audit.AuditProject` and `Audit.AuditProjectFirstFileOnly` |
| Audit.AuditBatch | packages/auditor/src/audit.ts:128-147 | the per-file loop computes `AuditFiles`: findings in file order and summed counters, each failure swallowed |
| Audit.AuditProject | packages/auditor/src/audit.ts:112-158 | `auditProject` is None when the scope read throws, otherwise the audit of the first in-scope file |
| Audit.AuditFilesStep | packages/auditor/src/audit.ts:131-147 | (helper) one more file extends the fold by that file's contribution |
| Audit.ContributionOf | packages/auditor/src/audit.ts:132-147 | (helper) a failing file contributes nothing; an audited one contributes its tagged findings and its usage with a missing counter read as 0 |
| Audit.SingleFile | packages/auditor/src/audit.ts:131-147 | auditing a single file yields exactly that file's contribution |
| Audit.CombineIdentity | packages/auditor/src/audit.ts:121-129 | (helper) auditing nothing, empty findings and zero counters, is the identity of combining |
| Audit.CombineAssociative | packages/auditor/src/audit.ts:136-144 | combining keeps findings in order and sums counters however it is grouped |
| Audit.AuditFilesAppend | packages/auditor/src/audit.ts:131-147 | auditing `xs` then `ys` gives the findings of both in order and the sums of their counters |
| Audit.AuditFilesSkipsFailure | packages/auditor/src/audit.ts:132-147 | a file whose audit throws adds no findings and no tokens, and the files after it are still audited |
| Audit.AuditFilesFindings | packages/auditor/src/audit.ts:136-141 | every collected finding is one the service returned for an audited file, tagged with that file's contract name |
| Audit.AuditFilesTokensNonNegative | packages/auditor/src/audit.ts:143-144 | both counters stay non-negative when every audited file reports non-negative counters |
| Audit.ContributionTokensNonNegative | packages/auditor/src/audit.ts:143-144 | one file adds non-negative counters when its audit reports such |
| Audit.AuditProjectFirstFileOnly | packages/auditor/src/audit.ts:131 | only the first in-scope file bears on the project's audit, and none when no scope line names a Solidity source |
| Audit.ScenarioInterfaceFirst | packages/auditor/src/audit.ts:131 | a scope whose first line names an interface yields no findings and no tokens, even if the next line names an implementation |
| Audit.AuditOutcomesEntries | packages/auditor/src/audit.ts:169-180 | one outcome per project, in order, each that project's own audit |
| Audit.AuditProjects | packages/auditor/src/audit.ts:167-180 | the outcomes are those of the first two projects, and the totals are `BatchTotal` of them |
| Audit.AuditEach | packages/auditor/src/audit.ts:169-180 | the loop over projects collects each outcome in order and keeps the running totals equal to `BatchTotal` |
| Audit.BatchTotalStep | packages/auditor/src/audit.ts:175-178 | (helper) one more project adds its token counts, none for a failed project |
| Audit.BatchTotalAppend | packages/auditor/src/audit.ts:169-180 | the batch totals are additive over consecutive runs of projects |
| Audit.FailedProjectAddsNothing | packages/auditor/src/audit.ts:177-179 | a project whose audit throws contributes nothing to the batch totals |
| Audit.ProjectTokens | packages/auditor/src/audit.ts:170-179 | (definition) what one project adds to the totals: its counters, none when it throws; see `Audit.FailedProjectAddsNothing` |
| Audit.BatchTotal | packages/auditor/src/audit.ts:167-180 | (definition) the running totals of `auditProjects` as a fold; see `Audit.AuditEach` and `Audit.BatchTotalAppend` |
| Audit.AuditOutcomes | packages/auditor/src/audit.ts:169-180 | (definition) the outcome of each project in turn; see `Audit.AuditOutcomesEntries` |
| Audit.PlusAssociative | packages/auditor/src/audit.ts:175-176 | (helper) counter sums do not depend on grouping |

## Left out

- File I/O is not modelled. The scope, contract, ground-truth and agent-findings reads enter as parameters, `None` for a read that throws; `mkdirSync` and `writeFileSync` are not modelled, beyond a written report being part of a function's result.
- JSON parsing, stringifying and the timestamped directory names are left out. They are I/O formatting.
- The language-model calls, their prompts and their schemas are left out: `judgeFinding` (`bench.ts` lines 7-50) and the call in `auditFile` (lines 9-30 and 65-100). They are foreign calls. The judge is a function parameter and the schemas are plain datatypes. `Severity` stands for the enum; a reply that does not fit a schema is `JudgeFailed` or `AuditThrew`.
- The judge and the audit service are modelled as functions, so they are deterministic: in the model, two equal agent records anywhere in one run get the same verdict, while a real model may answer each call differently.
- `Bench.Finding` holds only the four fields `bench.ts` declares. The agent findings written by `audit.ts` also carry `severity` and `contractName`, and the judge sees them through `JSON.stringify`. In the model, records that differ only in those two fields therefore get the same verdict.
- The two companion-contract reads of `auditFile` (lines 48-56) always succeed in this model; their text only enters the prompt.
- The read of the flattened file (lines 65-68) is folded, with the service call, into `Env.generate`. Both happen only after the interface check.
- Numbers are modelled as unbounded integers. JavaScript numbers (doubles, `NaN`, fractional ids) are not modelled; the schema asks for numbers that are ids and counters.
- The `contractName ?? ''` fallback is not modelled, because it is unreachable: a split always has a last piece.
- `Audit.AuditBatch` and `Audit.AuditEach` keep the two counters as one `Tokens` pair; each component is updated exactly as its counter in the source is.
- The console logging is left out. It has no effect on the results.
- The `new Date()` directory names are left out. They are clock reads and only name output folders.
- `getProjects` (the project list) and `fs.readdirSync` (the directory order) are parameters: the project list is passed to `AuditProjects` and the project order to `Bench`.
- The `test` function of `audit.ts` is left out. It is a prompt experiment with fixed paths and no logic beyond `auditFile`.
- `auditAndBench` is left out. It only sequences `auditProjects` and `bench`.
- `index.ts` and `utils.ts` are not part of this model. They hold a process-exec wrapper, a code generator, file writes, a file-read substring check and a constant project list.
- Concurrency is not modelled: the `await`s run one after another in the source.
