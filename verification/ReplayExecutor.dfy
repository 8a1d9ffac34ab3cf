/**
 The staged executor of a replay: stages run in order, each under its own caps
 and the manifest's, each receipt chained to the one before by digest, and the
 promoter only after the last stage. The store, the authority, the runner and
 the promoter answer through an environment that may say anything.
*/
module ReplayExecutor {
  import opened Common

  type Digest = string

  datatype StageSpec = StageSpec(
    name: string, provider: string, model: string,
    promptCap: int, outputCap: int, callCap: int, costCap: int, deterministic: bool)

  datatype Artifact = Artifact(id: string, kind: string, digest: Digest, sourceDigest: Digest, manifestDigest: Digest,
      text: string)

  datatype Usage = Usage(calls: int, input: int, output: int, cost: int, estimated: bool)

  datatype StageResult = StageResult(artifacts: seq<Artifact>, usage: Usage)

  datatype Source = Source(objectId: string, contentDigest: Digest)

  datatype Manifest = Manifest(
    digest: Digest, sourceDigest: Digest, sources: seq<Source>, stages: seq<StageSpec>,
    maxCalls: int, maxTokens: int, maxCost: int)

  datatype Cause = Drift | Ceiling | Unavailable | Invalid | Cancelled | Deadline | Other

  datatype Status = Prepared | Running | Completed | Failed | Drifted

  datatype Receipt = Receipt(
    stage: string, ordinal: nat, status: Status, input: Digest, output: Digest, usage: Usage, cause: Option<Cause>)

  datatype Promoted = Done | Pending | Refused(cause: Cause)

  /** The outside world's answers. `digestOf` is the artifact digest; `wellFormed` says a digest is 64 hex digits. */
  datatype Env = Env(
    digestOf: seq<Artifact> -> Digest, wellFormed: Digest -> bool,
    renew: nat -> Option<Cause>, current: nat -> bool, prepare: nat -> Option<Cause>,
    run: (nat, seq<Artifact>) -> Result<StageResult, Cause>, record: nat -> Option<Cause>,
    promote: Option<seq<Artifact> -> Promoted>, finish: Option<Cause>)

  /** The calls the executor makes, in order. */
  datatype Act =
    | Renew(ordinal: nat)
    | Revalidate
    | Record(receipt: Receipt)
    | RunStage(ordinal: nat, input: seq<Artifact>)
    | Promote(artifacts: seq<Artifact>)
    | End(status: Status)

  datatype Execution = Execution(status: Status, receipts: seq<Receipt>, usage: Usage)

  datatype Outcome = Outcome(execution: Execution, acts: seq<Act>, error: Option<Cause>, pending: bool)

  const ZERO := Usage(0, 0, 0, 0, false)

  function Plus(x: Usage, y: Usage): Usage {
    Usage(x.calls + y.calls, x.input + y.input, x.output + y.output, x.cost + y.cost, x.estimated || y.estimated)
  }

  // ---- The reviewed stages --------------------------------------------------------------

  const OPENAI := "openai"

  /** The compiled route matrix, for the two configured models. */
  function DefaultStages(brain: string, narrative: string): (r: seq<StageSpec>)
    ensures |r| == 8
  {
    [ StageSpec("brain", OPENAI, brain, 32000, 2400, 1, 1000000, false),
      StageSpec("decision", OPENAI, brain, 12000, 1600, 1, 500000, false),
      StageSpec("mission", OPENAI, brain, 12000, 1600, 1, 500000, false),
      StageSpec("narrative", OPENAI, narrative, 12000, 4000, 1, 1000000, false),
      StageSpec("meeting_digest", OPENAI, brain, 12000, 2000, 1, 750000, false),
      StageSpec("day_fold", "deterministic", "meeting-digest-fold-v1", 0, 0, 0, 0, true),
      StageSpec("entity_ledger", OPENAI, brain, 8000, 1600, 1, 500000, false),
      StageSpec("company_digest", OPENAI, brain, 12000, 2000, 1, 750000, false) ]
  }

  predicate DistinctNames(stages: seq<StageSpec>) {
    forall i, j :: 0 <= i < |stages| && 0 <= j < |stages| && stages[i].name == stages[j].name ==> i == j
  }

  /** What a manifest's stages must satisfy before anything runs. */
  predicate Canonical(stages: seq<StageSpec>, defaults: seq<StageSpec>) {
    && stages != [] && stages[0].name == "brain" && DistinctNames(stages)
    && forall i :: 0 <= i < |stages| ==> stages[i] in defaults
  }

  method ValidateCanonicalStages(stages: seq<StageSpec>, defaults: seq<StageSpec>) returns (ok: bool)
    ensures ok <==> Canonical(stages, defaults)
  {
    if |stages| == 0 || stages[0].name != "brain" { return false; }
    var seen := {};
    for i := 0 to |stages|
      invariant seen == set k | 0 <= k < i :: stages[k].name
      invariant DistinctNames(stages[..i]) && forall k :: 0 <= k < i ==> stages[k] in defaults
    {
      if stages[i].name in seen || stages[i] !in defaults {
        assert !Canonical(stages, defaults) by {
          if stages[i].name in seen {
            var k :| 0 <= k < i && stages[k].name == stages[i].name;
          }
        }
        return false;
      }
      seen := seen + {stages[i].name};
    }
    assert stages[..|stages|] == stages;
    return true;
  }

  /** The defaults that are asked for, in their own order. */
  function Chosen(defaults: seq<StageSpec>, names: set<string>): seq<StageSpec> {
    if defaults == [] then []
    else Chosen(defaults[..|defaults| - 1], names) +
         if defaults[|defaults| - 1].name in names then [defaults[|defaults| - 1]] else []
  }

  predicate Selectable(names: seq<string>, defaults: seq<StageSpec>) {
    && "" !in names && "board" !in names && "brain" in names
    && forall n :: n in names ==> exists i :: 0 <= i < |defaults| && defaults[i].name == n
  }

  function NamesOf(stages: seq<StageSpec>): set<string> { set i | 0 <= i < |stages| :: stages[i].name }

  lemma NamesOfAppend(stages: seq<StageSpec>, x: StageSpec)
    ensures NamesOf(stages + [x]) == NamesOf(stages) + {x.name}
  {
    var all := stages + [x];
    assert forall i :: 0 <= i < |stages| ==> all[i] == stages[i];
    assert all[|stages|] == x;
  }

  lemma ChosenSnoc(front: seq<StageSpec>, last: StageSpec, names: set<string>)
    ensures Chosen(front + [last], names) == Chosen(front, names) + if last.name in names then [last] else []
  {
    assert (front + [last])[..|front|] == front;
  }

  lemma {:induction false} ChosenAreDefaults(defaults: seq<StageSpec>, names: set<string>)
    ensures NamesOf(Chosen(defaults, names)) == NamesOf(defaults) * names
    ensures forall x :: x in Chosen(defaults, names) ==> x in defaults
  {
    if defaults != [] {
      var front, last := defaults[..|defaults| - 1], defaults[|defaults| - 1];
      assert defaults == front + [last];
      ChosenAreDefaults(front, names);
      ChosenSnoc(front, last, names);
      NamesOfAppend(front, last);
      if last.name in names {
        NamesOfAppend(Chosen(front, names), last);
      } else {
        assert Chosen(defaults, names) == Chosen(front, names);
      }
    }
  }

  lemma {:induction false} ChosenAreDistinct(defaults: seq<StageSpec>, names: set<string>)
    requires DistinctNames(defaults)
    ensures DistinctNames(Chosen(defaults, names))
  {
    if defaults != [] {
      var front, last := defaults[..|defaults| - 1], defaults[|defaults| - 1];
      assert defaults == front + [last];
      ChosenAreDistinct(front, names);
      ChosenAreDefaults(front, names);
      ChosenSnoc(front, last, names);
      var rest := Chosen(front, names);
      assert forall i :: 0 <= i < |rest| ==> rest[i].name in NamesOf(rest);
      assert last.name !in NamesOf(front);
    }
  }

  lemma {:induction false} ChosenFirst(defaults: seq<StageSpec>, names: set<string>)
    requires defaults != [] && defaults[0].name in names
    ensures Chosen(defaults, names) != [] && Chosen(defaults, names)[0] == defaults[0]
  {
    var front, last := defaults[..|defaults| - 1], defaults[|defaults| - 1];
    assert defaults == front + [last];
    ChosenSnoc(front, last, names);
    if front == [] { assert Chosen(front, names) == []; } else { ChosenFirst(front, names); }
  }

  lemma ChosenNames(defaults: seq<StageSpec>, names: set<string>)
    requires DistinctNames(defaults)
    ensures NamesOf(Chosen(defaults, names)) == NamesOf(defaults) * names
    ensures DistinctNames(Chosen(defaults, names))
    ensures forall i :: 0 <= i < |Chosen(defaults, names)| ==> Chosen(defaults, names)[i] in defaults
    ensures defaults != [] && defaults[0].name in names ==>
        Chosen(defaults, names) != [] && Chosen(defaults, names)[0] == defaults[0]
  {
    ChosenAreDefaults(defaults, names);
    ChosenAreDistinct(defaults, names);
    if defaults != [] && defaults[0].name in names { ChosenFirst(defaults, names); }
  }

  method CollectNames(names: seq<string>) returns (wanted: Option<set<string>>)
    ensures wanted.None? <==> "" in names || "board" in names
    ensures wanted.Some? ==> wanted.value == set n | n in names
  {
    var collected: set<string> := {};
    for i := 0 to |names|
      invariant collected == set n | n in names[..i]
      invariant "" !in collected && "board" !in collected
    {
      if names[i] == "" || names[i] == "board" { return None; }
      collected := collected + {names[i]};
    }
    assert names[..|names|] == names;
    return Some(collected);
  }

  /** The defaults that are asked for, and the names left over. */
  method PickStages(defaults: seq<StageSpec>, asked: set<string>) returns (result: seq<StageSpec>, left: set<string>)
    requires DistinctNames(defaults)
    ensures result == Chosen(defaults, asked) && left == asked - NamesOf(defaults)
  {
    result, left := [], asked;
    for i := 0 to |defaults|
      invariant result == Chosen(defaults[..i], asked)
      invariant left == asked - NamesOf(defaults[..i])
    {
      assert defaults[..i + 1] == defaults[..i] + [defaults[i]];
      ChosenSnoc(defaults[..i], defaults[i], asked);
      NamesOfAppend(defaults[..i], defaults[i]);
      assert defaults[i].name !in NamesOf(defaults[..i]);
      if defaults[i].name in left {
        result := result + [defaults[i]];
        left := left - {defaults[i].name};
      }
    }
    assert defaults[..|defaults|] == defaults;
  }

  lemma SelectableExactly(names: seq<string>, defaults: seq<StageSpec>, asked: set<string>)
    requires DistinctNames(defaults) && defaults != [] && defaults[0].name == "brain"
    requires asked == (set n | n in names) && "" !in names && "board" !in names
    ensures Selectable(names, defaults) <==>
            asked - NamesOf(defaults) == {} && Chosen(defaults, asked) != []
                && Chosen(defaults, asked)[0].name == "brain"
  {
    var result := Chosen(defaults, asked);
    ChosenNames(defaults, asked);
    if Selectable(names, defaults) {
      assert "brain" in asked;
      forall n | n in asked ensures n in NamesOf(defaults) { assert n in names; }
    }
    if asked - NamesOf(defaults) == {} && result != [] && result[0].name == "brain" {
      assert result[0].name in NamesOf(result);
      forall n | n in names ensures exists i :: 0 <= i < |defaults| && defaults[i].name == n {
        assert n in asked && n !in asked - NamesOf(defaults);
      }
    }
  }

  /** Selection of the requested stages: only the set of names matters, not their order or repetition;
      an empty request means all of them; and what is selected always passes validation. */
  method SelectStages(names: seq<string>, defaults: seq<StageSpec>) returns (r: Result<seq<StageSpec>, Cause>)
    requires DistinctNames(defaults) && defaults != [] && defaults[0].name == "brain"
    ensures r.Ok? <==> names == [] || Selectable(names, defaults)
    ensures r.Ok? ==> r.value == if names == [] then defaults else Chosen(defaults, set n | n in names)
    ensures r.Ok? ==> Canonical(r.value, defaults)
    ensures r.Err? ==> r.error == Invalid
  {
    if |names| == 0 { return Ok(defaults); }
    var wanted := CollectNames(names);
    if wanted.None? { return Err(Invalid); }
    var result, left := PickStages(defaults, wanted.value);
    SelectableExactly(names, defaults, wanted.value);
    ChosenNames(defaults, wanted.value);
    if left != {} || |result| == 0 || result[0].name != "brain" { return Err(Invalid); }
    return Ok(result);
  }

  // ---- One stage ------------------------------------------------------------------------------

  function SourceArtifacts(m: Manifest): seq<Artifact> {
    seq(|m.sources|, i requires 0 <= i < |m.sources| =>
      Artifact(m.sources[i].objectId, "transcript", m.sources[i].contentDigest, m.sourceDigest, m.digest, ""))
  }

  /** What stage k is given: the sources, or exactly what the stage before it produced. */
  function Input(m: Manifest, env: Env, k: nat): seq<Artifact>
    decreases k, 0
  {
    if k == 0 then SourceArtifacts(m) else Result(m, env, k - 1).artifacts
  }

  function Result(m: Manifest, env: Env, k: nat): StageResult
    decreases k, 1
  {
    match env.run(k, Input(m, env, k)) case Ok(r) => r case Err(_) => StageResult([], ZERO)
  }

  function Spent(m: Manifest, env: Env, k: nat): Usage {
    if k == 0 then ZERO else Plus(Spent(m, env, k - 1), Result(m, env, k - 1).usage)
  }

  predicate Bound(m: Manifest, env: Env, a: Artifact) {
    a.id != "" && a.kind != "" && env.wellFormed(a.digest) && a.sourceDigest == m.sourceDigest
        && a.manifestDigest == m.digest
  }

  predicate WithinStage(stage: StageSpec, u: Usage) {
    && 0 <= u.calls <= stage.callCap && 0 <= u.input <= stage.promptCap
    && 0 <= u.output <= stage.outputCap && 0 <= u.cost <= stage.costCap
  }

  predicate WithinManifest(m: Manifest, u: Usage) {
    u.calls <= m.maxCalls && u.input + u.output <= m.maxTokens && u.cost <= m.maxCost
  }

  datatype Verdict = Accept | Refuse(cause: Cause) | Stop(cause: Cause)

  /** The checks on what the runner returned, before its usage is charged. */
  function JudgeResult(m: Manifest, env: Env, stage: StageSpec, r: StageResult): Option<Cause> {
    if r.artifacts == [] then Some(Drift)
    else if exists i :: 0 <= i < |r.artifacts| && !Bound(m, env, r.artifacts[i]) then Some(Drift)
    else if !WithinStage(stage, r.usage) then Some(Ceiling)
    else if !stage.deterministic && (r.usage.calls != 1 || r.usage.estimated) then Some(Unavailable)
    else None
  }

  predicate Ready(m: Manifest, env: Env, k: nat)
    requires k < |m.stages|
  {
    m.stages[k].name != "board" && env.renew(k).None? && env.current(k) && env.prepare(k).None?
  }

  predicate Charged(m: Manifest, env: Env, k: nat)
    requires k < |m.stages|
  {
    Ready(m, env, k) && env.run(k, Input(m, env, k)).Ok? && JudgeResult(m, env, m.stages[k], Result(m, env, k)).None?
  }

  /** A refused stage is recorded as failed; at a stop the store itself refused and nothing more is written. */
  function Judge(m: Manifest, env: Env, k: nat): Verdict
    requires k < |m.stages|
  {
    if m.stages[k].name == "board" then Refuse(Invalid)
    else if env.renew(k).Some? then Refuse(env.renew(k).value)
    else if !env.current(k) then Refuse(Drift)
    else if env.prepare(k).Some? then Stop(env.prepare(k).value)
    else
      match env.run(k, Input(m, env, k))
      case Err(c) => Refuse(c)
      case Ok(r) =>
        var bad := JudgeResult(m, env, m.stages[k], r);
        if bad.Some? then Refuse(bad.value)
        else if !WithinManifest(m, Plus(Spent(m, env, k), r.usage)) then Refuse(Ceiling)
        else if env.record(k).Some? then Stop(env.record(k).value)
        else Accept
  }

  function PreparedReceipt(m: Manifest, env: Env, k: nat): Receipt
    requires k < |m.stages|
  {
    Receipt(m.stages[k].name, k, Prepared, env.digestOf(Input(m, env, k)), "", ZERO, None)
  }

  function CompletedReceipt(m: Manifest, env: Env, k: nat): Receipt
    requires k < |m.stages|
  {
    PreparedReceipt(m, env, k).(status := Completed, output := env.digestOf(Result(m, env, k).artifacts),
        usage := Result(m, env, k).usage)
  }

  function StatusFor(c: Cause): Status { if c == Drift then Drifted else Failed }

  function FailedReceipt(m: Manifest, env: Env, k: nat, c: Cause): Receipt
    requires k < |m.stages|
  {
    if m.stages[k].name == "board" then Receipt("board", 0, StatusFor(c), "", "", ZERO, Some(c))
    else PreparedReceipt(m, env, k).(status := StatusFor(c), cause := Some(c))
  }

  function PromotionFailure(c: Cause): Receipt { Receipt("promotion", 0, StatusFor(c), "", "", ZERO, Some(c)) }

  /** The calls made for stage k, up to where it was refused or stopped. */
  function Attempt(m: Manifest, env: Env, k: nat): seq<Act>
    requires k < |m.stages|
  {
    if m.stages[k].name == "board" then []
    else if env.renew(k).Some? then [Renew(k)]
    else if !env.current(k) then [Renew(k), Revalidate]
    else
      var ready := [Renew(k), Revalidate, Record(PreparedReceipt(m, env, k))];
      if env.prepare(k).Some? then ready
      else if Judge(m, env, k).Refuse? then ready + [RunStage(k, Input(m, env, k))]
      else ready + [RunStage(k, Input(m, env, k)), Record(CompletedReceipt(m, env, k))]
  }

  // ---- The whole execution -----------------------------------------------------------------------

  function Receipts(m: Manifest, env: Env, k: nat): seq<Receipt>
    requires k <= |m.stages|
  {
    if k == 0 then [] else Receipts(m, env, k - 1) + [CompletedReceipt(m, env, k - 1)]
  }

  function Acts(m: Manifest, env: Env, k: nat): seq<Act>
    requires k <= |m.stages|
  {
    if k == 0 then [] else Acts(m, env, k - 1) + Attempt(m, env, k - 1)
  }

  function Produced(m: Manifest, env: Env, k: nat): seq<Artifact> {
    if k == 0 then [] else Produced(m, env, k - 1) + Result(m, env, k - 1).artifacts
  }

  function Fail(e: Execution, acts: seq<Act>, receipt: Receipt, c: Cause): Outcome {
    Outcome(Execution(StatusFor(c), e.receipts + [receipt], e.usage), acts + [Record(receipt), End(StatusFor(c))],
        Some(c), false)
  }

  function Finish(env: Env, e: Execution, acts: seq<Act>): Outcome {
    if env.finish.Some? then Outcome(e, acts + [End(Completed)], env.finish, false)
    else Outcome(e.(status := Completed), acts + [End(Completed)], None, false)
  }

  function AfterStages(m: Manifest, env: Env, e: Execution, acts: seq<Act>, produced: seq<Artifact>): Outcome {
    if env.promote.None? then Finish(env, e, acts)
    else if !env.current(|m.stages|) then Fail(e, acts + [Revalidate], PromotionFailure(Drift), Drift)
    else
      var tried := acts + [Revalidate, Promote(produced)];
      match env.promote.value(produced)
      case Pending => Outcome(e, tried, None, true)
      case Refused(c) => Fail(e, tried, PromotionFailure(c), c)
      case Done => Finish(env, e, tried)
  }

  /** What becomes of an execution whose first k stages were accepted. */
  function Walk(m: Manifest, env: Env, k: nat): Outcome
    requires k <= |m.stages|
    decreases |m.stages| - k
  {
    var e := Execution(Running, Receipts(m, env, k), Spent(m, env, k));
    if k == |m.stages| then AfterStages(m, env, e, Acts(m, env, k), Produced(m, env, k))
    else
      var acts := Acts(m, env, k) + Attempt(m, env, k);
      var charged := if Charged(m, env, k) then e.(usage := Spent(m, env, k + 1)) else e;
      match Judge(m, env, k)
      case Accept => Walk(m, env, k + 1)
      case Refuse(c) => Fail(charged, acts, FailedReceipt(m, env, k, c), c)
      case Stop(c) => Outcome(charged, acts, Some(c), false)
  }

  /** One pass of the executor's loop: the calls it makes, the usage it charges and the verdict. */
  method AttemptStage(m: Manifest, env: Env, k: nat, input: seq<Artifact>, spent: Usage)
    returns (verdict: Verdict, acts: seq<Act>, usage: Usage, receipt: Receipt, produced: seq<Artifact>)
    requires k < |m.stages| && input == Input(m, env, k) && spent == Spent(m, env, k)
    ensures verdict == Judge(m, env, k) && acts == Attempt(m, env, k)
    ensures usage == if Charged(m, env, k) then Spent(m, env, k + 1) else spent
    ensures verdict.Accept? ==> receipt == CompletedReceipt(m, env, k) && produced == Result(m, env, k).artifacts
    ensures verdict.Refuse? ==> receipt == FailedReceipt(m, env, k, verdict.cause)
  {
    var stage := m.stages[k];
    usage, produced, acts := spent, [], [];
    if stage.name == "board" {
      receipt := Receipt("board", 0, Failed, "", "", ZERO, Some(Invalid));
      return Refuse(Invalid), acts, usage, receipt, produced;
    }
    receipt := Receipt(stage.name, k, Prepared, env.digestOf(input), "", ZERO, None);
    acts := [Renew(k)];
    var renewed := env.renew(k);
    if renewed.Some? {
      return Refuse(renewed.value), acts, usage, FailedFrom(receipt, renewed.value), produced;
    }
    acts := acts + [Revalidate];
    if !env.current(k) {
      return Refuse(Drift), acts, usage, FailedFrom(receipt, Drift), produced;
    }
    acts := acts + [Record(receipt)];
    var prepared := env.prepare(k);
    if prepared.Some? {
      return Stop(prepared.value), acts, usage, receipt, produced;
    }
    acts := acts + [RunStage(k, input)];
    var ran := env.run(k, input);
    if ran.Err? {
      return Refuse(ran.error), acts, usage, FailedFrom(receipt, ran.error), produced;
    }
    var result := ran.value;
    var bad := JudgeResult(m, env, stage, result);
    if bad.Some? {
      return Refuse(bad.value), acts, usage, FailedFrom(receipt, bad.value), produced;
    }
    usage := Plus(usage, result.usage);
    if !WithinManifest(m, usage) {
      return Refuse(Ceiling), acts, usage, FailedFrom(receipt, Ceiling), produced;
    }
    receipt := receipt.(status := Completed, output := env.digestOf(result.artifacts), usage := result.usage);
    acts := acts + [Record(receipt)];
    var recorded := env.record(k);
    if recorded.Some? {
      return Stop(recorded.value), acts, usage, receipt, produced;
    }
    return Accept, acts, usage, receipt, result.artifacts;
  }

  function FailedFrom(prepared: Receipt, c: Cause): Receipt { prepared.(status := StatusFor(c), cause := Some(c)) }

  /** One step of the walk, by the stage's verdict. */
  lemma WalkStep(m: Manifest, env: Env, k: nat)
    requires k < |m.stages|
    ensures var e := Execution(Running, Receipts(m, env, k), if Charged(m, env, k) then Spent(m, env, k + 1)
        else Spent(m, env, k));
            var acts := Acts(m, env, k) + Attempt(m, env, k); var v := Judge(m, env, k);
            && (v.Accept? ==> Walk(m, env, k) == Walk(m, env, k + 1) && Charged(m, env, k))
            && (v.Refuse? ==> Walk(m, env, k) == Fail(e, acts, FailedReceipt(m, env, k, v.cause), v.cause))
            && (v.Stop? ==> Walk(m, env, k) == Outcome(e, acts, Some(v.cause), false))
    ensures Input(m, env, k + 1) == Result(m, env, k).artifacts
    ensures Receipts(m, env, k + 1) == Receipts(m, env, k) + [CompletedReceipt(m, env, k)]
    ensures Acts(m, env, k + 1) == Acts(m, env, k) + Attempt(m, env, k)
    ensures Produced(m, env, k + 1) == Produced(m, env, k) + Result(m, env, k).artifacts
  {
  }

  method CollectSources(m: Manifest) returns (input: seq<Artifact>)
    ensures input == SourceArtifacts(m)
  {
    input := [];
    for i := 0 to |m.sources|
      invariant input == SourceArtifacts(m)[..i]
    {
      input := input + [Artifact(m.sources[i].objectId, "transcript", m.sources[i].contentDigest, m.sourceDigest,
          m.digest, "")];
    }
    assert SourceArtifacts(m)[..|m.sources|] == SourceArtifacts(m);
  }

  /** The executor: stages in order until one is not accepted, then promotion and completion. */
  method Execute(m: Manifest, env: Env) returns (out: Outcome)
    ensures out == Walk(m, env, 0)
  {
    var input := CollectSources(m);
    var receipts: seq<Receipt>, acts: seq<Act>, produced: seq<Artifact>, usage := [], [], [], ZERO;
    for k := 0 to |m.stages|
      invariant Walk(m, env, 0) == Walk(m, env, k)
      invariant input == Input(m, env, k) && usage == Spent(m, env, k)
      invariant receipts == Receipts(m, env, k) && acts == Acts(m, env, k) && produced == Produced(m, env, k)
    {
      WalkStep(m, env, k);
      var verdict, calls, charged, receipt, artifacts := AttemptStage(m, env, k, input, usage);
      acts, usage := acts + calls, charged;
      if verdict.Refuse? { return Fail(Execution(Running, receipts, usage), acts, receipt, verdict.cause); }
      if verdict.Stop? { return Outcome(Execution(Running, receipts, usage), acts, Some(verdict.cause), false); }
      receipts, produced, input := receipts + [receipt], produced + artifacts, artifacts;
    }
    WalkEnds(m, env);
    return AfterStages(m, env, Execution(Running, receipts, usage), acts, produced);
  }

  lemma WalkEnds(m: Manifest, env: Env)
    ensures var n := |m.stages|;
            Walk(m, env, n) == AfterStages(m, env, Execution(Running, Receipts(m, env, n), Spent(m, env, n)),
                Acts(m, env, n), Produced(m, env, n))
  {
  }

  // ---- What a completed execution proves -------------------------------------------------------------

  ghost predicate AllAccepted(m: Manifest, env: Env, k: nat)
    requires k <= |m.stages|
  {
    forall i :: 0 <= i < k ==> Judge(m, env, i) == Accept
  }

  function PaidCount(stages: seq<StageSpec>): nat {
    if stages == [] then 0 else PaidCount(stages[..|stages| - 1]) + if stages[|stages| - 1].deterministic then 0 else 1
  }

  function SumUsage(receipts: seq<Receipt>): Usage {
    if receipts == [] then ZERO else Plus(SumUsage(receipts[..|receipts| - 1]), receipts[|receipts| - 1].usage)
  }

  /** Up to the first stage not accepted, walking on from k is walking on from the start. */
  lemma {:induction false} WalkFrom(m: Manifest, env: Env, k: nat)
    requires k <= |m.stages| && AllAccepted(m, env, k)
    ensures Walk(m, env, 0) == Walk(m, env, k)
  {
    if k > 0 { WalkFrom(m, env, k - 1); }
  }

  /** The number of leading stages that are accepted. */
  function Accepted(m: Manifest, env: Env, k: nat): (n: nat)
    requires k <= |m.stages|
    ensures k <= n <= |m.stages|
    ensures forall i :: k <= i < n ==> Judge(m, env, i) == Accept
    ensures n < |m.stages| ==> Judge(m, env, n) != Accept
    decreases |m.stages| - k
  {
    if k == |m.stages| || Judge(m, env, k) != Accept then k else Accepted(m, env, k + 1)
  }

  /** Receipt i: its stage's, completed, its input the previous output, its usage within the stage's caps
      and, for a paid stage, exactly one measured call. */
  ghost predicate Link(m: Manifest, env: Env, receipts: seq<Receipt>, i: nat)
    requires i < |receipts| <= |m.stages|
  {
    && receipts[i].stage == m.stages[i].name && receipts[i].ordinal == i && receipts[i].status == Completed
    && receipts[i].input == (if i == 0 then env.digestOf(SourceArtifacts(m)) else receipts[i - 1].output)
    && WithinStage(m.stages[i], receipts[i].usage)
    && (!m.stages[i].deterministic ==> receipts[i].usage.calls == 1 && !receipts[i].usage.estimated)
  }

  ghost predicate Chained(m: Manifest, env: Env, receipts: seq<Receipt>) {
    |receipts| <= |m.stages| && forall i :: 0 <= i < |receipts| ==> Link(m, env, receipts, i)
  }

  lemma AcceptedMeans(m: Manifest, env: Env, k: nat)
    requires k < |m.stages| && Judge(m, env, k) == Accept
    ensures var u := Result(m, env, k).usage;
            && Charged(m, env, k) && WithinStage(m.stages[k], u)
                && (!m.stages[k].deterministic ==> u.calls == 1 && !u.estimated)
            && WithinManifest(m, Spent(m, env, k + 1))
  {
    assert Spent(m, env, k + 1) == Plus(Spent(m, env, k), Result(m, env, k).usage);
  }

  lemma {:induction false} ReceiptsAre(m: Manifest, env: Env, k: nat)
    requires k <= |m.stages|
    ensures |Receipts(m, env, k)| == k
    ensures forall i :: 0 <= i < k ==> Receipts(m, env, k)[i] == CompletedReceipt(m, env, i)
  {
    if k > 0 { ReceiptsAre(m, env, k - 1); }
  }

  lemma {:induction false} ReceiptsSum(m: Manifest, env: Env, k: nat)
    requires k <= |m.stages|
    ensures SumUsage(Receipts(m, env, k)) == Spent(m, env, k)
  {
    if k > 0 {
      var before := Receipts(m, env, k - 1);
      var last := CompletedReceipt(m, env, k - 1);
      ReceiptsSum(m, env, k - 1);
      assert last.usage == Result(m, env, k - 1).usage;
      SumAppend(before, last);
    }
  }

  lemma SumAppend(receipts: seq<Receipt>, r: Receipt)
    ensures SumUsage(receipts + [r]) == Plus(SumUsage(receipts), r.usage)
  {
    assert (receipts + [r])[..|receipts|] == receipts;
  }

  lemma ReceiptsAreChained(m: Manifest, env: Env, k: nat)
    requires k <= |m.stages| && AllAccepted(m, env, k)
    ensures Chained(m, env, Receipts(m, env, k))
  {
    var rs := Receipts(m, env, k);
    ReceiptsAre(m, env, k);
    forall i | 0 <= i < k ensures Link(m, env, rs, i) {
      AcceptedMeans(m, env, i);
      ReceiptLinks(m, env, i);
    }
  }

  /** The input digest of each receipt is the output digest of the one before. */
  lemma ReceiptLinks(m: Manifest, env: Env, i: nat)
    requires i < |m.stages|
    ensures CompletedReceipt(m, env, i).input ==
            if i == 0 then env.digestOf(SourceArtifacts(m)) else CompletedReceipt(m, env, i - 1).output
  {
  }

  lemma CompletedMeansAllAccepted(m: Manifest, env: Env)
    requires Walk(m, env, 0).error.None? && !Walk(m, env, 0).pending
    ensures AllAccepted(m, env, |m.stages|)
    ensures Walk(m, env, 0).execution == Execution(Completed, Receipts(m, env, |m.stages|), Spent(m, env, |m.stages|))
  {
    WalkFrom(m, env, Accepted(m, env, 0));
  }

  /** A completed execution has one receipt per stage, chained from the sources; its usage is the sum of
      the receipts and within every manifest cap. */
  lemma CompletedExecutionIsAccountedFor(m: Manifest, env: Env)
    requires m.stages != [] && Walk(m, env, 0).error.None? && !Walk(m, env, 0).pending
    ensures var e := Walk(m, env, 0).execution;
            && e.status == Completed && |e.receipts| == |m.stages| && Chained(m, env, e.receipts)
            && e.usage == SumUsage(e.receipts) && WithinManifest(m, e.usage)
  {
    CompletedMeansAllAccepted(m, env);
    ReceiptsAreChained(m, env, |m.stages|);
    ReceiptsAre(m, env, |m.stages|);
    ReceiptsSum(m, env, |m.stages|);
    AcceptedMeans(m, env, |m.stages| - 1);
  }

  lemma {:induction false} CallsArePaidStages(m: Manifest, env: Env, receipts: seq<Receipt>, k: nat)
    requires Chained(m, env, receipts) && k <= |receipts|
    requires forall i :: 0 <= i < |m.stages| && m.stages[i].deterministic ==> m.stages[i].callCap == 0
    ensures SumUsage(receipts[..k]).calls == PaidCount(m.stages[..k])
  {
    if k > 0 {
      CallsArePaidStages(m, env, receipts, k - 1);
      assert Link(m, env, receipts, k - 1);
      assert m.stages[..k][..k - 1] == m.stages[..k - 1] && receipts[..k][..k - 1] == receipts[..k - 1];
    }
  }

  lemma DeterministicStagesAreFree(stages: seq<StageSpec>, brain: string, narrative: string)
    requires Canonical(stages, DefaultStages(brain, narrative))
    ensures forall i :: 0 <= i < |stages| && stages[i].deterministic ==> stages[i].callCap == 0
    ensures forall i :: 0 <= i < |stages| ==> stages[i].name != "board"
  {
    var ds := DefaultStages(brain, narrative);
    forall i | 0 <= i < |stages| ensures stages[i].name != "board"
        && (stages[i].deterministic ==> stages[i].callCap == 0) {
      assert stages[i] in ds;
    }
  }

  /** The calls of a completed execution are its paid stages, neither more nor fewer; so a manifest
      authorizing fewer calls than it has paid stages can never complete. */
  lemma CompletedCallsArePaidStages(m: Manifest, env: Env, brain: string, narrative: string)
    requires Canonical(m.stages, DefaultStages(brain, narrative))
    requires Walk(m, env, 0).error.None? && !Walk(m, env, 0).pending
    ensures Walk(m, env, 0).execution.usage.calls == PaidCount(m.stages) <= m.maxCalls
  {
    var rs := Walk(m, env, 0).execution.receipts;
    assert |rs| == |m.stages| && Chained(m, env, rs) && Walk(m, env, 0).execution.usage == SumUsage(rs)
        && WithinManifest(m, Walk(m, env, 0).execution.usage) by {
      CompletedExecutionIsAccountedFor(m, env);
    }
    DeterministicStagesAreFree(m.stages, brain, narrative);
    CallsArePaidStages(m, env, rs, |rs|);
    assert rs[..|rs|] == rs && m.stages[..|rs|] == m.stages;
  }

  // ---- What any execution proves about the calls it makes --------------------------------------------

  /** Provider calls are made in stage order, each stage at most once, and only for stages below n. */
  ghost predicate CallsInOrder(acts: seq<Act>, n: nat) {
    && (forall i :: 0 <= i < |acts| && acts[i].RunStage? ==> acts[i].ordinal < n)
    && (forall i, j :: 0 <= i < j < |acts| && acts[i].RunStage? && acts[j].RunStage? ==>
        acts[i].ordinal < acts[j].ordinal)
    && (forall i :: 0 <= i < |acts| ==> !acts[i].Promote? && !acts[i].End?)
  }

  lemma AttemptCalls(m: Manifest, env: Env, k: nat)
    requires k < |m.stages|
    ensures var a := Attempt(m, env, k);
            && (forall i :: 0 <= i < |a| && a[i].RunStage? ==> i == 3 && a[i].ordinal == k)
            && (forall i :: 0 <= i < |a| ==> !a[i].Promote? && !a[i].End?)
  {
  }

  lemma AppendCalls(acts: seq<Act>, n: nat, more: seq<Act>)
    requires CallsInOrder(acts, n)
    requires forall i :: 0 <= i < |more| && more[i].RunStage? ==> i == 3 && more[i].ordinal == n
    requires forall i :: 0 <= i < |more| ==> !more[i].Promote? && !more[i].End?
    ensures CallsInOrder(acts + more, n + 1)
  {
    var all := acts + more;
    assert forall i :: 0 <= i < |acts| ==> all[i] == acts[i];
    assert forall i :: |acts| <= i < |all| ==> all[i] == more[i - |acts|];
  }

  lemma {:induction false} ActsAreInOrder(m: Manifest, env: Env, k: nat)
    requires k <= |m.stages|
    ensures CallsInOrder(Acts(m, env, k), k)
  {
    if k > 0 {
      ActsAreInOrder(m, env, k - 1);
      AttemptCalls(m, env, k - 1);
      AppendCalls(Acts(m, env, k - 1), k - 1, Attempt(m, env, k - 1));
    }
  }

  /** What comes after the stages: at most one promotion, and at most one end. A failed end never follows a
      promotion that committed or is pending. */
  ghost predicate ClosingOf(env: Env, produced: seq<Artifact>, tail: seq<Act>) {
    && (forall i :: 0 <= i < |tail| ==> !tail[i].RunStage?)
    && (forall i :: 0 <= i < |tail| && tail[i].Promote? ==>
        i == 1 && tail[i].artifacts == produced && env.promote.Some?)
    && (forall i :: 0 <= i < |tail| && tail[i].End? ==> i == |tail| - 1)
    && (forall i, j ::
          0 <= i < |tail| && 0 <= j < |tail| && tail[i].Promote? && tail[j].End? && tail[j].status != Completed ==>
          env.promote.value(produced).Refused?)
  }

  lemma AfterStagesCloses(m: Manifest, env: Env, e: Execution, acts: seq<Act>, produced: seq<Artifact>, tail: seq<Act>)
    requires AfterStages(m, env, e, acts, produced).acts == acts + tail
    ensures ClosingOf(env, produced, tail)
  {
    var all := AfterStages(m, env, e, acts, produced).acts;
    var own := if env.promote.None? then [End(Completed)]
      else if !env.current(|m.stages|) then [Revalidate, Record(PromotionFailure(Drift)), End(StatusFor(Drift))]
      else match env.promote.value(produced)
        case Pending => [Revalidate, Promote(produced)]
        case Refused(c) => [Revalidate, Promote(produced), Record(PromotionFailure(c)), End(StatusFor(c))]
        case Done => [Revalidate, Promote(produced), End(Completed)];
    assert all == acts + own;
    assert tail == all[|acts|..] && own == all[|acts|..];
  }

  /** A stage that is not accepted is the last one tried: nothing runs or is promoted after it, and the
      execution either ends failed or drifted, or is left running for its lease to elapse. */
  lemma RefusedStageEndsTheRun(m: Manifest, env: Env)
    requires Accepted(m, env, 0) < |m.stages|
    ensures var n := Accepted(m, env, 0); var out := Walk(m, env, 0); var tried := Acts(m, env, n) + Attempt(m, env, n);
            var v := Judge(m, env, n);
            && CallsInOrder(tried, n + 1) && !v.Accept? && out.error == Some(v.cause) && !out.pending
            && (v.Stop? ==> out.acts == tried && out.execution.status == Running)
            && (v.Refuse? ==> out.acts == tried + [Record(FailedReceipt(m, env, n, v.cause)), End(StatusFor(v.cause))]
                              && out.execution.status == StatusFor(v.cause))
  {
    var n := Accepted(m, env, 0);
    WalkFrom(m, env, n);
    ActsAreInOrder(m, env, n + 1);
  }

  /** The promoter is called at most once, only after every stage was accepted, with exactly what the stages
      produced in order; no provider call follows it, and an execution is failed after it was called only if
      it refused. */
  lemma PromoterRunsLast(m: Manifest, env: Env)
    requires Accepted(m, env, 0) == |m.stages|
    ensures var before := Acts(m, env, |m.stages|); var acts := Walk(m, env, 0).acts;
            && CallsInOrder(before, |m.stages|) && before <= acts
            && ClosingOf(env, Produced(m, env, |m.stages|), acts[|before|..])
  {
    var n := |m.stages|;
    WalkFrom(m, env, n);
    ActsAreInOrder(m, env, n);
    var e := Execution(Running, Receipts(m, env, n), Spent(m, env, n));
    assert Walk(m, env, 0) == AfterStages(m, env, e, Acts(m, env, n), Produced(m, env, n));
    ClosesAfter(m, env, e, Acts(m, env, n), Produced(m, env, n));
  }

  lemma ClosesAfter(m: Manifest, env: Env, e: Execution, acts: seq<Act>, produced: seq<Artifact>)
    ensures var all := AfterStages(m, env, e, acts, produced).acts;
        acts <= all && ClosingOf(env, produced, all[|acts|..])
  {
    AfterStagesExtends(m, env, e, acts, produced);
    var all := AfterStages(m, env, e, acts, produced).acts;
    assert all == acts + all[|acts|..];
    AfterStagesCloses(m, env, e, acts, produced, all[|acts|..]);
  }

  lemma AfterStagesExtends(m: Manifest, env: Env, e: Execution, acts: seq<Act>, produced: seq<Artifact>)
    ensures acts <= AfterStages(m, env, e, acts, produced).acts
  {
  }
}
