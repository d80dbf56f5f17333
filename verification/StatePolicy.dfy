/**
 The tool mask of an interactive repair episode: which tools the policy model may call
 next, recomputed from the whole event history after every call.

 The scans below follow the program; `Tracker` is the constant-memory reading of the same
 history, and the lemmas show that the two always agree.
 */
module StatePolicy {
  import opened Prelude

  datatype Tool =
    | GetSchemaVersion
    | InspectSchemaDiff
    | GetSchema
    | GetKnowledge
    | AskUser
    | ExecuteSql
    | SubmitSolution
    | Other(name: string)

  const RETRIEVAL_TOOLS: set<Tool> := {GetSchemaVersion, InspectSchemaDiff, GetSchema, GetKnowledge}
  const ONE_SHOT_TOOLS: set<Tool> := RETRIEVAL_TOOLS + {AskUser}
  const POST_CLARIFICATION_TOOLS: set<Tool> := {GetKnowledge, ExecuteSql}
  const SEVEN_TOOLS: set<Tool> := ONE_SHOT_TOOLS + {ExecuteSql, SubmitSolution}

  /** The fields of a tool observation that the policy reads. */
  datatype Observation = Observation(
    actionMasked: bool,     // truthy `action_masked`
    successFalse: bool,     // `success` is exactly False
    contractFalse: bool,    // `result_contract_match` is exactly False
    validatedTrue: bool,    // `validated_for_submit` is exactly True
    hasSchema: bool)        // truthy `schema`

  /** What an unparseable response reads as: an empty object. */
  const BLANK := Observation(false, false, false, false, false)

  datatype Event = Event(
    tool: Tool,
    arguments: Option<string>,  // canonical text; None when the key is absent
    error: bool,
    metricsMasked: bool,
    guarded: bool,              // answered by the duplicate-retrieval guard
    returned: bool,             // the tool itself answered, and did not raise
    observation: Observation)

  /** One element of the triples that both selectors build. */
  datatype Completed = Completed(index: int, tool: Tool, observation: Observation)

  datatype Entry = Entry(tool: Tool, observation: Observation)

  predicate WasMasked(e: Event) {
    e.metricsMasked || e.observation.actionMasked
  }

  /** The metrics never claim a mask that the observation does not show. */
  predicate Coherent(events: seq<Event>) {
    forall e | e in events :: e.metricsMasked ==> e.observation.actionMasked
  }

  // ---------------------------------------------------------------------------------
  // The scans

  predicate IsTrigger(tool: Tool, o: Observation) {
    tool == ExecuteSql && (o.successFalse || o.contractFalse)
  }

  function ValidOnly(es: seq<Completed>): seq<Completed> {
    if es == [] then [] else
    var k := |es| - 1;
    ValidOnly(es[..k]) + if es[k].observation.actionMasked then [] else [es[k]]
  }

  function TriggerPositions(valid: seq<Completed>): seq<int> {
    if valid == [] then [] else
    var k := |valid| - 1;
    TriggerPositions(valid[..k]) + if IsTrigger(valid[k].tool, valid[k].observation) then [valid[k].index] else []
  }

  predicate AlreadyRecovered(valid: seq<Completed>, mismatch: int) {
    exists v, d | v in valid && d in valid ::
      v.tool == GetSchemaVersion && d.tool == InspectSchemaDiff && v.index < d.index < mismatch
  }

  function VersionsAfter(valid: seq<Completed>, mismatch: int): seq<int> {
    if valid == [] then [] else
    var k := |valid| - 1;
    VersionsAfter(valid[..k], mismatch) +
    if valid[k].tool == GetSchemaVersion && valid[k].index > mismatch then [valid[k].index] else []
  }

  function Least(s: seq<int>): int
    requires s != []
  {
    if |s| == 1 then s[0] else Min(Least(s[..|s| - 1]), s[|s| - 1])
  }

  predicate HasDiffAfter(valid: seq<Completed>, index: int) {
    exists d | d in valid :: d.index > index && d.tool == InspectSchemaDiff
  }

  /** The backwards loop over trigger positions. */
  function ScanTriggers(valid: seq<Completed>, positions: seq<int>): Option<Tool> {
    if positions == [] then None else
    var k := |positions| - 1;
    if AlreadyRecovered(valid, positions[k]) then ScanTriggers(valid, positions[..k]) else
    var after := VersionsAfter(valid, positions[k]);
    if after == [] then Some(GetSchemaVersion)
    else if !HasDiffAfter(valid, Least(after)) then Some(InspectSchemaDiff)
    else ScanTriggers(valid, positions[..k])
  }

  function RequiredRecoveryAction(es: seq<Completed>): Option<Tool> {
    var valid := ValidOnly(es);
    ScanTriggers(valid, TriggerPositions(valid))
  }

  function Executions(es: seq<Completed>): seq<Observation> {
    if es == [] then [] else
    var k := |es| - 1;
    Executions(es[..k]) +
    if es[k].tool == ExecuteSql && !es[k].observation.actionMasked then [es[k].observation] else []
  }

  predicate HasValidatedExecution(es: seq<Completed>) {
    var executions := Executions(es);
    executions != [] && executions[|executions| - 1].validatedTrue
  }

  function PostClarificationTools(available: set<Tool>, knowledgeFirst: bool): set<Tool> {
    var allowed := available * POST_CLARIFICATION_TOOLS;
    if !knowledgeFirst then allowed
    else if GetKnowledge in allowed then {GetKnowledge}
    else allowed * {ExecuteSql}
  }

  // ---------------------------------------------------------------------------------
  // The automaton

  datatype Phase = Idle | NeedVersion | NeedDiff

  /** Everything the mask depends on, in constant memory. */
  datatype Tracker = Tracker(
    called: set<Tool>,      // one-shot tools already called
    versionSeen: bool,
    pairSeen: bool,         // a version followed by a diff
    phase: Phase,
    validated: bool,        // the newest execution is safe to submit
    awaiting: bool,         // a clarification that nothing has followed up
    schemaSeen: bool)

  const START := Tracker({}, false, false, Idle, false, false, false)

  function NextPhase(t: Tracker, tool: Tool, o: Observation): Phase {
    if IsTrigger(tool, o) && !t.pairSeen then NeedVersion
    else if tool == GetSchemaVersion && t.phase == NeedVersion then NeedDiff
    else if tool == InspectSchemaDiff && t.phase == NeedDiff then Idle
    else t.phase
  }

  function Advance(t: Tracker, tool: Tool, o: Observation): Tracker {
    if o.actionMasked then t else
    Tracker(
      if tool in ONE_SHOT_TOOLS then t.called + {tool} else t.called,
      t.versionSeen || tool == GetSchemaVersion,
      t.pairSeen || (tool == InspectSchemaDiff && t.versionSeen),
      NextPhase(t, tool, o),
      if tool == ExecuteSql then o.validatedTrue else t.validated,
      if tool == AskUser then true else if tool in POST_CLARIFICATION_TOOLS then false else t.awaiting,
      t.schemaSeen || (tool == GetSchema && o.hasSchema))
  }

  function Track(log: seq<Entry>): Tracker {
    if log == [] then START else
    var k := |log| - 1;
    Advance(Track(log[..k]), log[k].tool, log[k].observation)
  }

  function EntriesOf(es: seq<Completed>): seq<Entry> {
    seq(|es|, i requires 0 <= i < |es| => Entry(es[i].tool, es[i].observation))
  }

  function Log(events: seq<Event>): seq<Entry> {
    seq(|events|, i requires 0 <= i < |events| => Entry(events[i].tool, events[i].observation))
  }

  function RequiredBy(phase: Phase): Option<Tool> {
    match phase
    case Idle => None
    case NeedVersion => Some(GetSchemaVersion)
    case NeedDiff => Some(InspectSchemaDiff)
  }

  datatype Mode = Mode(knowledgeFirst: bool, executionOnly: bool)

  const LIVE := Mode(false, false)

  /** The mask, read off the tracker. */
  function Allowed(t: Tracker, tools: set<Tool>, mode: Mode): set<Tool> {
    if mode.executionOnly then
      if !t.schemaSeen && GetSchema in tools then {GetSchema}
      else if t.validated then tools * {SubmitSolution}
      else tools - t.called - {SubmitSolution}
    else
      var required := RequiredBy(t.phase);
      if required.Some? && required.value in tools then {required.value}
      else if t.validated && SubmitSolution in tools then {SubmitSolution}
      else if t.awaiting then PostClarificationTools(tools - t.called, mode.knowledgeFirst)
      else tools - t.called
  }
}
