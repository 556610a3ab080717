/**
 * Audit aggregation: the project's scope file names its Solidity sources, the first of them
 * is audited, every finding the audit service returns is tagged with the contract it came
 * from, and the usage counters are summed per project and per batch.
 */
module Audit {
  import opened Wrappers
  import opened Seqs
  import opened Strings

  datatype Severity = High | Medium | Low

  /** A finding as the audit service returns it. */
  datatype RawFinding = RawFinding(title: string, severity: Severity, description: string, proofOfConcept: string)

  /** A finding as the project's findings file holds it: the service's fields and the contract name. */
  datatype TaggedFinding = TaggedFinding(title: string, severity: Severity, description: string,
                                         proofOfConcept: string, contractName: string)

  /** The usage counters the service reports; either may be absent. */
  datatype Usage = Usage(promptTokens: Option<int>, completionTokens: Option<int>)

  /** What auditing one file gives: a thrown error, or findings and the usage, if any. */
  datatype FileAudit = AuditThrew | Audited(findings: seq<RawFinding>, usage: Option<Usage>)

  /** A pair of running token counters. */
  datatype Tokens = Tokens(prompt: int, completion: int)

  /** What auditing one project gives: the findings written to its findings file and its token counts. */
  datatype ProjectAudit = ProjectAudit(findings: seq<TaggedFinding>, tokens: Tokens)

  /**
   * The collaborators of the auditor. `scopeText` reads a project's scope file, `source` reads
   * one contract of a project (None when the read throws), and `generate` stands for everything
   * `auditFile` does after the interface check for a given project, contract name and contract
   * text: the read of the flattened file and the call to the audit service.
   */
  datatype Env = Env(scopeText: string -> Option<string>,
                     source: (string, string) -> Option<string>,
                     generate: (string, string, string) -> FileAudit)

  /** Only this many in-scope files are audited per project. */
  const FilesPerProject: nat := 1

  /** Only this many projects are audited per batch. */
  const ProjectsPerBatch: nat := 2

  const NoTokens := Tokens(0, 0)

  const NoAudit := ProjectAudit([], NoTokens)

  /** A scope line names a Solidity source when it contains `.sol`. */
  predicate IsSolidityPath(line: string) {
    Contains(line, ".sol")
  }

  /** The lines of the scope file that name Solidity sources, in scope order. */
  function FilesInScope(scope: string): (r: seq<string>)
    ensures forall f :: f in r ==> IsSolidityPath(f) && '\n' !in f
    ensures forall line :: line in Split(scope, '\n') && IsSolidityPath(line) ==> line in r
  {
    Filter(Split(scope, '\n'), IsSolidityPath)
  }

  /** Scope files put together line by line keep their in-scope files in order. */
  lemma FilesInScopeAppend(a: string, b: string)
    ensures FilesInScope(a + "\n" + b) == FilesInScope(a) + FilesInScope(b)
  {
    SplitAppend(a, b, '\n');
    FilterAppend(Split(a, '\n'), Split(b, '\n'), IsSolidityPath);
  }

  /** The part of a path after its last `/`. */
  function LastSegment(path: string): (r: string)
    ensures '/' !in r
  {
    var parts := Split(path, '/');
    parts[|parts| - 1]
  }

  /** Removing the first occurrence of a pattern adds no character. */
  lemma RemoveFirstKeepsOut(s: string, t: string, ch: char)
    requires ch !in s
    ensures ch !in ReplaceFirst(s, t, "")
  {
    match IndexOf(s, t)
    case None =>
    case Some(i) =>
      assert ReplaceFirst(s, t, "") == s[..i] + s[i + |t|..];
      assert forall c :: c in s[..i] ==> c in s;
      assert forall c :: c in s[i + |t|..] ==> c in s;
  }

  /** The contract name of a path: its last segment with the first `.sol` removed. */
  function ContractName(path: string): (r: string)
    ensures '/' !in r
  {
    RemoveFirstKeepsOut(LastSegment(path), ".sol", '/');
    ReplaceFirst(LastSegment(path), ".sol", "")
  }

  /** Only the last segment of a path bears on its contract name. */
  lemma ContractNameIgnoresDirectory(dir: string, segment: string)
    requires '/' !in segment
    ensures ContractName(dir + "/" + segment) == ContractName(segment)
  {
    SplitAppend(dir, segment, '/');
    SplitWithoutSeparator(segment, '/');
  }

  /** No `.sol` of `name + ".sol"` starts inside `name` when `name` has none. */
  lemma NoSolBefore(name: string, j: nat)
    requires !Contains(name, ".sol") && j < |name|
    ensures !OccursAt(name + ".sol", ".sol", j)
  {
    var s, ext := name + ".sol", ".sol";
    if j + 4 <= |name| {
      assert s[j..j + 4] == name[j..j + 4];
      assert !OccursAt(name, ext, j);
    } else {
      var window := s[j..j + 4];
      assert window[|name| - j] == s[|name|] == '.';
    }
  }

  /**
   * In `name + ".sol"` the first `.sol` is the appended one when `name` has none: `.sol` does
   * not overlap itself, so no occurrence can straddle the join.
   */
  lemma FirstSolIsExtension(name: string)
    requires !Contains(name, ".sol")
    ensures IndexOf(name + ".sol", ".sol") == Some(|name|)
  {
    ExtensionOccurs(name);
    NoSolBeforeExtension(name);
    FirstOccurrence(name + ".sol", ".sol", |name|);
  }

  /** The appended `.sol` is an occurrence. */
  lemma ExtensionOccurs(name: string)
    ensures OccursAt(name + ".sol", ".sol", |name|)
  {
    var s := name + ".sol";
    assert s[|name|..|name| + 4] == ".sol";
  }

  /** No occurrence of `.sol` in `name + ".sol"` starts before the appended one. */
  lemma NoSolBeforeExtension(name: string)
    requires !Contains(name, ".sol")
    ensures forall j :: 0 <= j < |name| ==> !OccursAt(name + ".sol", ".sol", j)
  {
    forall j | 0 <= j < |name|
      ensures !OccursAt(name + ".sol", ".sol", j)
    {
      NoSolBefore(name, j);
    }
  }

  /**
   * The contract name of `dir/Name.sol`, or of `Name.sol`, is `Name` when `Name` holds neither
   * a `/` nor a `.sol` of its own.
   */
  lemma ContractNameOfSolidityFile(dir: string, name: string)
    requires '/' !in name && !Contains(name, ".sol")
    ensures ContractName(name + ".sol") == name
    ensures ContractName(dir + "/" + name + ".sol") == name
  {
    var file := name + ".sol";
    assert '/' !in file;
    SplitWithoutSeparator(file, '/');
    FirstSolIsExtension(name);
    assert file[..|name|] == name && file[|name| + 4..] == [];
    assert dir + "/" + name + ".sol" == dir + "/" + file;
    ContractNameIgnoresDirectory(dir, file);
  }

  /** A last segment without `.sol` is the contract name as it stands. */
  lemma ContractNameWithoutExtension(dir: string, segment: string)
    requires '/' !in segment && !Contains(segment, ".sol")
    ensures ContractName(dir + "/" + segment) == segment
  {
    ContractNameIgnoresDirectory(dir, segment);
    SplitWithoutSeparator(segment, '/');
  }

  /** The interface check of `auditFile`: the raw text contains `interface `. */
  predicate LooksLikeInterface(content: string) {
    Contains(content, "interface ")
  }

  /**
   * The check is textual: `interface ` anywhere in the text, in a comment or a string literal
   * as well, makes the file look like an interface.
   */
  lemma InterfaceMarkerAnywhere(before: string, after: string)
    ensures LooksLikeInterface(before + "interface " + after)
  {
    var s := before + "interface " + after;
    assert s[|before|..|before| + 10] == "interface ";
    assert OccursAt(s, "interface ", |before|);
  }

  /**
   * `auditFile`: read the contract (a failed read throws), skip an interface with no findings
   * and no usage, otherwise hand the name and text to the audit service.
   */
  function AuditFile(project: string, filePath: string, env: Env): FileAudit
  {
    match env.source(project, filePath)
    case None => AuditThrew
    case Some(content) =>
      if LooksLikeInterface(content) then Audited([], None)
      else env.generate(project, ContractName(filePath), content)
  }

  /**
   * A file that looks like an interface yields no findings and no usage whatever the audit
   * service would have answered: the service is not consulted.
   */
  lemma InterfaceNotAudited(project: string, filePath: string, env: Env, content: string,
                            generate: (string, string, string) -> FileAudit)
    requires env.source(project, filePath) == Some(content) && LooksLikeInterface(content)
    ensures AuditFile(project, filePath, env) == Audited([], None)
    ensures AuditFile(project, filePath, env.(generate := generate)) == AuditFile(project, filePath, env)
  {
  }

  /** The service's fields of a tagged finding. */
  function Untag(t: TaggedFinding): RawFinding {
    RawFinding(t.title, t.severity, t.description, t.proofOfConcept)
  }

  /** `{ ...finding, contractName }`: the finding as returned, with the contract name added. */
  function Tag(f: RawFinding, name: string): (r: TaggedFinding)
    ensures r.contractName == name && Untag(r) == f
  {
    TaggedFinding(f.title, f.severity, f.description, f.proofOfConcept, name)
  }

  /** Tags every finding of one file, in order. */
  function TagAll(fs: seq<RawFinding>, name: string): (r: seq<TaggedFinding>)
    ensures |r| == |fs|
    ensures forall k :: 0 <= k < |r| ==> r[k].contractName == name && Untag(r[k]) == fs[k]
  {
    if fs == [] then [] else [Tag(fs[0], name)] + TagAll(fs[1..], name)
  }

  /** `usage?.promptTokens ?? 0` and `usage?.completionTokens ?? 0`. */
  function UsageTokens(usage: Option<Usage>): Tokens {
    match usage
    case None => NoTokens
    case Some(u) => Tokens(u.promptTokens.GetOr(0), u.completionTokens.GetOr(0))
  }

  function Plus(a: Tokens, b: Tokens): Tokens {
    Tokens(a.prompt + b.prompt, a.completion + b.completion)
  }

  function Combine(a: ProjectAudit, b: ProjectAudit): ProjectAudit {
    ProjectAudit(a.findings + b.findings, Plus(a.tokens, b.tokens))
  }

  /** What one in-scope file adds to its project: nothing when its audit throws. */
  function FileContribution(project: string, filePath: string, env: Env): ProjectAudit {
    match AuditFile(project, filePath, env)
    case AuditThrew => NoAudit
    case Audited(fs, usage) => ProjectAudit(TagAll(fs, ContractName(filePath)), UsageTokens(usage))
  }

  /** The findings and token counts after auditing `files` in order, each failure swallowed. */
  function AuditFiles(project: string, files: seq<string>, env: Env): ProjectAudit
  {
    if files == [] then NoAudit
    else Combine(AuditFiles(project, files[..|files| - 1], env), FileContribution(project, files[|files| - 1], env))
  }

  /** `auditProject`: None when the scope file cannot be read, which escapes the project. */
  function AuditProjectOf(project: string, env: Env): Option<ProjectAudit> {
    match env.scopeText(project)
    case None => None
    case Some(scope) => Some(AuditFiles(project, Take(FilesInScope(scope), FilesPerProject), env))
  }

  /** One more file extends the fold by that file's contribution. */
  lemma AuditFilesStep(project: string, files: seq<string>, env: Env)
    requires files != []
    ensures AuditFiles(project, files, env)
         == Combine(AuditFiles(project, files[..|files| - 1], env), FileContribution(project, files[|files| - 1], env))
  {
  }

  /** A file's contribution, seen from the outcome of its audit. */
  lemma ContributionOf(project: string, filePath: string, env: Env)
    ensures AuditFile(project, filePath, env).AuditThrew? ==> FileContribution(project, filePath, env) == NoAudit
    ensures AuditFile(project, filePath, env).Audited? ==>
      FileContribution(project, filePath, env)
        == ProjectAudit(TagAll(AuditFile(project, filePath, env).findings, ContractName(filePath)),
                        UsageTokens(AuditFile(project, filePath, env).usage))
  {
  }

  /** `auditProject`: audits the first in-scope file, collecting tagged findings and usage. */
  method AuditProject(project: string, env: Env) returns (r: Option<ProjectAudit>)
    ensures r == AuditProjectOf(project, env)
  {
    var scope := env.scopeText(project);
    if scope.None? {
      return None;
    }
    var filesInScope := FilesInScope(scope.value);
    var audit := AuditBatch(project, Take(filesInScope, FilesPerProject), env);
    r := Some(audit);
  }

  /** The loop of `auditProject` over the files it audits: each failure swallowed, the rest summed. */
  method AuditBatch(project: string, batch: seq<string>, env: Env) returns (r: ProjectAudit)
    ensures r == AuditFiles(project, batch, env)
  {
    var allFindings: seq<TaggedFinding> := [];
    var tokens := NoTokens;
    for i := 0 to |batch|
      invariant AuditFiles(project, batch[..i], env) == ProjectAudit(allFindings, tokens)
    {
      AuditFilesStep(project, batch[..i + 1], env);
      var upto := batch[..i + 1];
      assert upto[..|upto| - 1] == batch[..i] && upto[|upto| - 1] == batch[i];
      var filePath := batch[i];
      var contractName := ContractName(filePath);
      var contractFindings := AuditFile(project, filePath, env);
      ContributionOf(project, filePath, env);
      if contractFindings.Audited? {
        allFindings := allFindings + TagAll(contractFindings.findings, contractName);
        tokens := Plus(tokens, UsageTokens(contractFindings.usage));
      } else {
        assert allFindings + [] == allFindings;
        assert Plus(tokens, NoTokens) == tokens;
      }
    }
    assert batch[..|batch|] == batch;
    r := ProjectAudit(allFindings, tokens);
  }

  /** Auditing nothing is the identity of combining. */
  lemma CombineIdentity(a: ProjectAudit)
    ensures Combine(NoAudit, a) == a && Combine(a, NoAudit) == a
  {
    assert [] + a.findings == a.findings && a.findings + [] == a.findings;
  }

  /** Combining keeps findings in order whichever way it is grouped. */
  lemma CombineAssociative(a: ProjectAudit, b: ProjectAudit, c: ProjectAudit)
    ensures Combine(Combine(a, b), c) == Combine(a, Combine(b, c))
  {
    assert (a.findings + b.findings) + c.findings == a.findings + (b.findings + c.findings);
  }

  /** Auditing `xs` and then `ys` gives the findings of both, in order, and the sums of their counters. */
  lemma {:induction false} AuditFilesAppend(project: string, xs: seq<string>, ys: seq<string>, env: Env)
    ensures AuditFiles(project, xs + ys, env) == Combine(AuditFiles(project, xs, env), AuditFiles(project, ys, env))
  {
    if ys == [] {
      assert xs + ys == xs;
      CombineIdentity(AuditFiles(project, xs, env));
    } else {
      var all := xs + ys;
      var yinit := ys[..|ys| - 1];
      assert all[..|all| - 1] == xs + yinit && all[|all| - 1] == ys[|ys| - 1];
      AuditFilesStep(project, all, env);
      AuditFilesStep(project, ys, env);
      AuditFilesAppend(project, xs, yinit, env);
      CombineAssociative(AuditFiles(project, xs, env), AuditFiles(project, yinit, env), FileContribution(project, ys[|ys| - 1], env));
    }
  }

  /** A file whose audit throws adds no findings and no tokens, and the files after it are still audited. */
  lemma AuditFilesSkipsFailure(project: string, xs: seq<string>, filePath: string, ys: seq<string>, env: Env)
    requires AuditFile(project, filePath, env).AuditThrew?
    ensures AuditFiles(project, xs + [filePath] + ys, env) == AuditFiles(project, xs + ys, env)
  {
    var one := [filePath];
    assert one[..|one| - 1] == [] && one[|one| - 1] == filePath;
    assert AuditFiles(project, one, env) == NoAudit;
    AuditFilesAppend(project, xs, one, env);
    AuditFilesAppend(project, xs + one, ys, env);
    AuditFilesAppend(project, xs, ys, env);
    assert AuditFiles(project, xs, env).findings + [] == AuditFiles(project, xs, env).findings;
  }

  /**
   * Every collected finding is one the service returned for some audited file, tagged with that
   * file's contract name and otherwise unchanged.
   */
  lemma {:induction false} AuditFilesFindings(project: string, files: seq<string>, env: Env)
    ensures forall t :: t in AuditFiles(project, files, env).findings ==>
      exists i :: 0 <= i < |files| && AuditFile(project, files[i], env).Audited? &&
        t.contractName == ContractName(files[i]) && Untag(t) in AuditFile(project, files[i], env).findings
  {
    if files != [] {
      var init, last := files[..|files| - 1], |files| - 1;
      AuditFilesFindings(project, init, env);
      assert forall i :: 0 <= i < |init| ==> init[i] == files[i];
      forall t | t in FileContribution(project, files[last], env).findings
        ensures AuditFile(project, files[last], env).Audited? &&
          t.contractName == ContractName(files[last]) && Untag(t) in AuditFile(project, files[last], env).findings
      {
        var fs := AuditFile(project, files[last], env).findings;
        var tagged := TagAll(fs, ContractName(files[last]));
        var k :| 0 <= k < |tagged| && tagged[k] == t;
        assert Untag(t) == fs[k];
      }
    }
  }

  /** The audit reports non-negative usage counters, where it reports any. */
  predicate NonNegativeUsage(a: FileAudit) {
    a.Audited? && a.usage.Some? ==> a.usage.value.promptTokens.GetOr(0) >= 0 && a.usage.value.completionTokens.GetOr(0) >= 0
  }

  /** Token counts stay non-negative when every audited file reports non-negative counters. */
  lemma {:induction false} AuditFilesTokensNonNegative(project: string, files: seq<string>, env: Env)
    requires forall i :: 0 <= i < |files| ==> NonNegativeUsage(AuditFile(project, files[i], env))
    ensures AuditFiles(project, files, env).tokens.prompt >= 0
    ensures AuditFiles(project, files, env).tokens.completion >= 0
  {
    if files != [] {
      var init := files[..|files| - 1];
      assert forall i :: 0 <= i < |init| ==> init[i] == files[i];
      AuditFilesTokensNonNegative(project, init, env);
      AuditFilesStep(project, files, env);
      ContributionTokensNonNegative(project, files[|files| - 1], env);
    }
  }

  /** One file's contribution has non-negative counters when its audit reports such. */
  lemma ContributionTokensNonNegative(project: string, filePath: string, env: Env)
    requires NonNegativeUsage(AuditFile(project, filePath, env))
    ensures FileContribution(project, filePath, env).tokens.prompt >= 0
    ensures FileContribution(project, filePath, env).tokens.completion >= 0
  {
  }

  /**
   * Only the first in-scope file bears on a project's audit: no file at all when no scope line
   * names a Solidity source.
   */
  lemma AuditProjectFirstFileOnly(project: string, env: Env, scope: string)
    requires env.scopeText(project) == Some(scope)
    ensures FilesInScope(scope) == [] ==> AuditProjectOf(project, env) == Some(NoAudit)
    ensures FilesInScope(scope) != [] ==>
      AuditProjectOf(project, env) == Some(FileContribution(project, FilesInScope(scope)[0], env))
  {
    var files := FilesInScope(scope);
    assert AuditProjectOf(project, env) == Some(AuditFiles(project, Take(files, FilesPerProject), env));
    if files != [] {
      assert Take(files, FilesPerProject) == [files[0]];
      SingleFile(project, files[0], env);
    }
  }

  /** Auditing a single file yields exactly that file's contribution. */
  lemma SingleFile(project: string, filePath: string, env: Env)
    ensures AuditFiles(project, [filePath], env) == FileContribution(project, filePath, env)
  {
    var one := [filePath];
    assert one[..|one| - 1] == [];
    CombineIdentity(FileContribution(project, filePath, env));
  }

  /**
   * A scope whose first line names an interface: the project yields no findings and no tokens,
   * even when the next line names an implementation.
   */
  lemma ScenarioInterfaceFirst(project: string, env: Env, first: string, second: string, text: string)
    requires env.scopeText(project) == Some(first + "\n" + second)
    requires '\n' !in first && IsSolidityPath(first)
    requires env.source(project, first) == Some(text) && LooksLikeInterface(text)
    ensures AuditProjectOf(project, env) == Some(NoAudit)
  {
    FilesInScopeAppend(first, second);
    SplitWithoutSeparator(first, '\n');
    assert Split(first, '\n')[1..] == [];
    assert FilesInScope(first) == [first];
    AuditProjectFirstFileOnly(project, env, first + "\n" + second);
  }

  /** The per-project token counts added into the batch totals: a failed project adds none. */
  function ProjectTokens(outcome: Option<ProjectAudit>): Tokens {
    match outcome
    case None => NoTokens
    case Some(a) => a.tokens
  }

  /** The running totals of `auditProjects` after the given project outcomes. */
  function BatchTotal(outcomes: seq<Option<ProjectAudit>>): Tokens
  {
    if outcomes == [] then NoTokens
    else Plus(BatchTotal(outcomes[..|outcomes| - 1]), ProjectTokens(outcomes[|outcomes| - 1]))
  }

  /** The batch totals are additive over consecutive runs of projects. */
  lemma {:induction false} BatchTotalAppend(xs: seq<Option<ProjectAudit>>, ys: seq<Option<ProjectAudit>>)
    ensures BatchTotal(xs + ys) == Plus(BatchTotal(xs), BatchTotal(ys))
  {
    if ys == [] {
      assert xs + ys == xs;
    } else {
      var init, last := ys[..|ys| - 1], ys[|ys| - 1];
      assert xs + ys == (xs + init) + [last] && ys == init + [last];
      BatchTotalStep(xs + init, last);
      BatchTotalStep(init, last);
      BatchTotalAppend(xs, init);
      PlusAssociative(BatchTotal(xs), BatchTotal(init), ProjectTokens(last));
    }
  }

  /** Token counts add up the same whichever way they are grouped. */
  lemma PlusAssociative(a: Tokens, b: Tokens, c: Tokens)
    ensures Plus(Plus(a, b), c) == Plus(a, Plus(b, c))
  {
  }

  /** A project whose audit throws contributes nothing to the batch totals. */
  lemma FailedProjectAddsNothing(xs: seq<Option<ProjectAudit>>, ys: seq<Option<ProjectAudit>>)
    ensures BatchTotal(xs + [None] + ys) == BatchTotal(xs + ys)
  {
    var one: seq<Option<ProjectAudit>> := [None];
    assert one[..|one| - 1] == [];
    assert BatchTotal(one) == NoTokens;
    BatchTotalAppend(xs, one);
    assert BatchTotal(xs + one) == BatchTotal(xs);
    BatchTotalAppend(xs + one, ys);
    BatchTotalAppend(xs, ys);
  }

  /** The audit of one project under `env`, as a function of the project's name. */
  function AuditUnder(env: Env): string -> Option<ProjectAudit> {
    project => AuditProjectOf(project, env)
  }

  /** The outcome of each project in turn: a failed project's entry is None. */
  function AuditOutcomes(projects: seq<string>, env: Env): seq<Option<ProjectAudit>> {
    Map(projects, AuditUnder(env))
  }

  /** There is one outcome per project, in project order, and each is that project's own audit. */
  lemma AuditOutcomesEntries(projects: seq<string>, env: Env)
    ensures |AuditOutcomes(projects, env)| == |projects|
    ensures forall i :: 0 <= i < |projects| ==> AuditOutcomes(projects, env)[i] == AuditProjectOf(projects[i], env)
  {
    MapEntries(projects, AuditUnder(env));
  }

  /** `auditProjects`: audits the first projects of the list, each failure caught, and sums their tokens. */
  method AuditProjects(projects: seq<string>, env: Env) returns (outcomes: seq<Option<ProjectAudit>>, total: Tokens)
    ensures outcomes == AuditOutcomes(Take(projects, ProjectsPerBatch), env)
    ensures total == BatchTotal(outcomes)
  {
    outcomes, total := AuditEach(Take(projects, ProjectsPerBatch), env);
  }

  /** The loop of `auditProjects`: each project audited in turn, a failed one adding no tokens. */
  method AuditEach(batch: seq<string>, env: Env) returns (outcomes: seq<Option<ProjectAudit>>, total: Tokens)
    ensures outcomes == AuditOutcomes(batch, env)
    ensures total == BatchTotal(outcomes)
  {
    outcomes := [];
    total := NoTokens;
    for i := 0 to |batch|
      invariant outcomes == Map(batch[..i], AuditUnder(env))
      invariant BatchTotal(outcomes) == total
    {
      var tokens := AuditProject(batch[i], env);
      BatchTotalStep(outcomes, tokens);
      MapStep(batch, i, AuditUnder(env));
      outcomes := outcomes + [tokens];
      total := Plus(total, ProjectTokens(tokens));
    }
    assert batch[..|batch|] == batch;
  }

  /** One more project outcome adds its token counts, none for a failed project. */
  lemma BatchTotalStep(outcomes: seq<Option<ProjectAudit>>, outcome: Option<ProjectAudit>)
    ensures BatchTotal(outcomes + [outcome]) == Plus(BatchTotal(outcomes), ProjectTokens(outcome))
  {
    var all := outcomes + [outcome];
    assert all[..|all| - 1] == outcomes;
  }
}
