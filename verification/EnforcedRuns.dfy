/**
 What the tool mask guarantees about whole episodes.  The model may propose any tool at any
 time and a tool may observe anything; the mask decides what is dispatched.
 */
module EnforcedRuns {
  import opened Prelude
  import opened StatePolicy
  import opened RecoveryScan

  predicate Permitted(e: Event) {
    !WasMasked(e)
  }

  ghost predicate EnforcedStep(past: seq<Event>, e: Event, tools: set<Tool>, mode: Mode) {
    var permitted := e.tool in Allowed(Track(Log(past)), tools, mode);
    e.metricsMasked == e.observation.actionMasked == !permitted
  }

  /** Every call was judged by the mask of the history before it. */
  ghost predicate EnforcedRun(events: seq<Event>, tools: set<Tool>, mode: Mode) {
    forall i | 0 <= i < |events| :: EnforcedStep(events[..i], events[i], tools, mode)
  }

  lemma LogSnoc(events: seq<Event>)
    requires events != []
    ensures var k := |events| - 1;
            Track(Log(events)) == Advance(Track(Log(events[..k])), events[k].tool, events[k].observation)
  {
    assert Log(events)[..|events| - 1] == Log(events[..|events| - 1]);
  }

  lemma RunPrefix(events: seq<Event>, n: nat, tools: set<Tool>, mode: Mode)
    requires n <= |events| && EnforcedRun(events, tools, mode)
    ensures EnforcedRun(events[..n], tools, mode)
  {
    forall i | 0 <= i < n
      ensures EnforcedStep(events[..n][..i], events[..n][i], tools, mode)
    {
      assert events[..n][..i] == events[..i];
    }
  }

  /** The newest call of a run, judged. */
  lemma RunLast(events: seq<Event>, tools: set<Tool>, mode: Mode)
    requires events != [] && EnforcedRun(events, tools, mode)
    ensures var k := |events| - 1;
            EnforcedRun(events[..k], tools, mode) && EnforcedStep(events[..k], events[k], tools, mode)
  {
    RunPrefix(events, |events| - 1, tools, mode);
  }

  lemma RunExtends(events: seq<Event>, e: Event, tools: set<Tool>, mode: Mode)
    requires EnforcedRun(events, tools, mode) && EnforcedStep(events, e, tools, mode)
    ensures EnforcedRun(events + [e], tools, mode)
  {
    var all := events + [e];
    forall i | 0 <= i < |all|
      ensures EnforcedStep(all[..i], all[i], tools, mode)
    {
      assert all[..i] == if i == |events| then events else events[..i];
    }
  }

  lemma RunIsCoherent(events: seq<Event>, tools: set<Tool>, mode: Mode)
    requires EnforcedRun(events, tools, mode)
    ensures Coherent(events)
  {
    forall e | e in events
      ensures e.metricsMasked ==> e.observation.actionMasked
    {
      var i :| 0 <= i < |events| && events[i] == e;
      assert EnforcedStep(events[..i], events[i], tools, mode);
    }
  }

  // ---------------------------------------------------------------------------------
  // Masked calls are invisible

  lemma {:induction false} TrackAppend(a: seq<Event>, b: seq<Event>, c: seq<Event>)
    requires Track(Log(a)) == Track(Log(b))
    ensures Track(Log(a + c)) == Track(Log(b + c))
  {
    if c == [] {
      assert a + c == a && b + c == b;
    } else {
      var k := |c| - 1;
      TrackAppend(a, b, c[..k]);
      AppendSnoc(a, c);
      AppendSnoc(b, c);
    }
  }

  lemma AppendSnoc(a: seq<Event>, c: seq<Event>)
    requires c != []
    ensures var k := |c| - 1;
            Track(Log(a + c)) == Advance(Track(Log(a + c[..k])), c[k].tool, c[k].observation)
  {
    assert (a + c)[..|a + c| - 1] == a + c[..|c| - 1];
    LogSnoc(a + c);
  }

  /** Inserting a masked call anywhere, or deleting one, never changes any later mask. */
  lemma MaskedCallsAreInvisible(before: seq<Event>, e: Event, after: seq<Event>)
    requires e.observation.actionMasked
    ensures Track(Log(before + [e] + after)) == Track(Log(before + after))
  {
    LogSnoc(before + [e]);
    assert (before + [e])[..|before|] == before;
    TrackAppend(before + [e], before, after);
  }

  // ---------------------------------------------------------------------------------
  // How often each tool is permitted

  function Count(events: seq<Event>, tool: Tool): nat {
    if events == [] then 0 else
    var k := |events| - 1;
    Count(events[..k], tool) + if events[k].tool == tool && Permitted(events[k]) then 1 else 0
  }

  /** The second permission, if any, is the one that recovery demanded. */
  ghost predicate Bounded(t: Tracker, versions: nat, diffs: nat) {
    && (versions == 0 <==> GetSchemaVersion !in t.called)
    && (diffs == 0 <==> InspectSchemaDiff !in t.called)
    && (t.versionSeen <==> versions > 0)
    && (t.phase != Idle ==> !t.pairSeen)
    && (t.phase == NeedDiff ==> versions > 0)
    && (t.pairSeen ==> versions > 0 && diffs > 0)
    && versions <= (if t.pairSeen || t.phase == NeedDiff then 2 else 1)
    && diffs <= (if t.pairSeen then 2 else 1)
  }

  lemma BoundedStep(t: Tracker, tool: Tool, o: Observation, tools: set<Tool>, mode: Mode, versions: nat, diffs: nat)
    requires Bounded(t, versions, diffs) && !mode.executionOnly
    requires {GetSchemaVersion, InspectSchemaDiff} <= tools
    requires tool in Allowed(t, tools, mode) && !o.actionMasked
    ensures Bounded(Advance(t, tool, o),
                    versions + if tool == GetSchemaVersion then 1 else 0,
                    diffs + if tool == InspectSchemaDiff then 1 else 0)
  {
    if tool in {GetSchemaVersion, InspectSchemaDiff} && t.phase == Idle {
      assert tool !in t.called;
    }
  }

  lemma {:induction false} RecoveryToolsBounded(events: seq<Event>, tools: set<Tool>, mode: Mode)
    requires EnforcedRun(events, tools, mode) && !mode.executionOnly
    requires {GetSchemaVersion, InspectSchemaDiff} <= tools
    ensures Bounded(Track(Log(events)), Count(events, GetSchemaVersion), Count(events, InspectSchemaDiff))
  {
    if events != [] {
      var k := |events| - 1;
      var past, e := events[..k], events[k];
      RunLast(events, tools, mode);
      RecoveryToolsBounded(past, tools, mode);
      LogSnoc(events);
      if Permitted(e) {
        BoundedStep(Track(Log(past)), e.tool, e.observation, tools, mode,
                    Count(past, GetSchemaVersion), Count(past, InspectSchemaDiff));
      }
    }
  }

  /** A one-shot tool outside the recovery pair is permitted only while it is uncalled. */
  lemma OneShotOnce(t: Tracker, tool: Tool, tools: set<Tool>, mode: Mode)
    requires tool in ONE_SHOT_TOOLS && tool in Allowed(t, tools, mode)
    requires mode.executionOnly ==> tool != GetSchema
    requires !mode.executionOnly ==> tool != GetSchemaVersion && tool != InspectSchemaDiff
    ensures tool !in t.called
  {
  }

  lemma CalledStep(t: Tracker, tool: Tool, called: Tool, o: Observation)
    requires tool in ONE_SHOT_TOOLS
    ensures tool in Advance(t, called, o).called <==> tool in t.called || (called == tool && !o.actionMasked)
  {
  }

  lemma {:induction false} OneShotBounded(events: seq<Event>, tool: Tool, tools: set<Tool>, mode: Mode)
    requires EnforcedRun(events, tools, mode) && tool in ONE_SHOT_TOOLS
    requires mode.executionOnly ==> tool != GetSchema
    requires !mode.executionOnly ==> tool != GetSchemaVersion && tool != InspectSchemaDiff
    ensures Count(events, tool) == if tool in Track(Log(events)).called then 1 else 0
  {
    if events != [] {
      var k := |events| - 1;
      RunLast(events, tools, mode);
      OneShotBounded(events[..k], tool, tools, mode);
      LogSnoc(events);
      var t, e := Track(Log(events[..k])), events[k];
      CalledStep(t, tool, e.tool, e.observation);
      if e.tool == tool && Permitted(e) {
        OneShotOnce(t, tool, tools, mode);
      }
    }
  }

  /**
   In every enforced episode of any length, schema, clarification and knowledge are each
   permitted at most once, and the two recovery retrievals at most twice: once voluntarily and
   once because a failed execution demanded it.
   */
  lemma PermissionBounds(events: seq<Event>, tools: set<Tool>, mode: Mode)
    requires EnforcedRun(events, tools, mode) && !mode.executionOnly
    requires {GetSchemaVersion, InspectSchemaDiff} <= tools
    ensures Count(events, GetSchema) <= 1
    ensures Count(events, AskUser) <= 1
    ensures Count(events, GetKnowledge) <= 1
    ensures Count(events, GetSchemaVersion) <= 2
    ensures Count(events, InspectSchemaDiff) <= 2
  {
    OneShotBounded(events, GetSchema, tools, mode);
    OneShotBounded(events, AskUser, tools, mode);
    OneShotBounded(events, GetKnowledge, tools, mode);
    RecoveryToolsBounded(events, tools, mode);
  }

  /** Without the recovery rule every retrieval but the schema is permitted at most once. */
  lemma ExecutionOnlyBounds(events: seq<Event>, tool: Tool, tools: set<Tool>, mode: Mode)
    requires EnforcedRun(events, tools, mode) && mode.executionOnly
    requires tool in ONE_SHOT_TOOLS && tool != GetSchema
    ensures Count(events, tool) <= 1
  {
    OneShotBounded(events, tool, tools, mode);
  }

  /** The first permitted call. */
  function FirstPermitted(events: seq<Event>): (r: Option<Event>)
    ensures r.Some? ==> Permitted(r.value)
  {
    if events == [] then None else
    var k := |events| - 1;
    var before := FirstPermitted(events[..k]);
    if before.Some? then before else if Permitted(events[k]) then Some(events[k]) else None
  }

  function PermittedCalls(events: seq<Event>): nat {
    if events == [] then 0 else
    var k := |events| - 1;
    PermittedCalls(events[..k]) + if Permitted(events[k]) then 1 else 0
  }

  /** How the schema calls of an execution-only run relate to what they showed. */
  ghost predicate SchemaState(t: Tracker, first: Option<Event>, permitted: nat, schemas: nat) {
    match first
    case None => permitted == 0 && schemas == 0 && !t.schemaSeen && GetSchema !in t.called
    case Some(e) =>
      && permitted > 0 && schemas > 0 && GetSchema in t.called
      && (e.observation.hasSchema ==> t.schemaSeen && schemas == 1)
      && (!e.observation.hasSchema ==> (permitted >= 2 <==> schemas >= 2) && (permitted == 1 ==> !t.schemaSeen))
  }

  lemma SchemaStep(t: Tracker, first: Option<Event>, permitted: nat, schemas: nat, e: Event, tools: set<Tool>, mode: Mode)
    requires SchemaState(t, first, permitted, schemas) && mode.executionOnly && GetSchema in tools
    requires e.tool in Allowed(t, tools, mode) && Permitted(e)
    ensures SchemaState(Advance(t, e.tool, e.observation), if first.Some? then first else Some(e), permitted + 1,
                        schemas + if e.tool == GetSchema then 1 else 0)
  {
  }

  lemma {:induction false} SchemaCallsTracked(events: seq<Event>, tools: set<Tool>, mode: Mode)
    requires EnforcedRun(events, tools, mode) && mode.executionOnly && GetSchema in tools
    ensures SchemaState(Track(Log(events)), FirstPermitted(events), PermittedCalls(events), Count(events, GetSchema))
  {
    if events != [] {
      var k := |events| - 1;
      RunLast(events, tools, mode);
      SchemaCallsTracked(events[..k], tools, mode);
      LogSnoc(events);
      if Permitted(events[k]) {
        SchemaStep(Track(Log(events[..k])), FirstPermitted(events[..k]), PermittedCalls(events[..k]),
                   Count(events[..k], GetSchema), events[k], tools, mode);
      }
    }
  }

  /**
   For the schema the bound holds there exactly when at most one call was permitted at all, or the
   first permitted call showed a schema.
   */
  lemma SchemaBoundExactly(events: seq<Event>, tools: set<Tool>, mode: Mode)
    requires EnforcedRun(events, tools, mode) && mode.executionOnly && GetSchema in tools
    ensures Count(events, GetSchema) <= 1 <==>
            var first := FirstPermitted(events);
            PermittedCalls(events) <= 1 || (first.Some? && first.value.observation.hasSchema)
  {
    SchemaCallsTracked(events, tools, mode);
  }

  /** The schema bound really fails there: an empty schema can be asked for without end. */
  lemma {:induction false} EmptySchemaRepeats(n: nat, mode: Mode) returns (events: seq<Event>)
    requires mode.executionOnly
    ensures EnforcedRun(events, SEVEN_TOOLS, mode)
    ensures Count(events, GetSchema) == n && !Track(Log(events)).schemaSeen
  {
    events := [];
    if n > 0 {
      var e := Event(GetSchema, Some("{}"), false, false, false, true, BLANK);
      var past := EmptySchemaRepeats(n - 1, mode);
      RunExtends(past, e, SEVEN_TOOLS, mode);
      events := past + [e];
      assert events[..|past|] == past;
      LogSnoc(events);
    }
  }

  // ---------------------------------------------------------------------------------
  // Recovery order

  /** Number of permitted calls among events[from..upTo]. */
  function PermittedIn(events: seq<Event>, from: nat, upTo: nat): nat
    requires from <= upTo <= |events|
    decreases upTo - from
  {
    if from == upTo then 0
    else PermittedIn(events, from, upTo - 1) + if Permitted(events[upTo - 1]) then 1 else 0
  }

  ghost predicate HasRecovered(events: seq<Event>) {
    exists v, d | 0 <= v < d < |events| ::
      && events[v].tool == GetSchemaVersion && Permitted(events[v])
      && events[d].tool == InspectSchemaDiff && Permitted(events[d])
  }

  ghost predicate HasVersionCall(events: seq<Event>) {
    exists v | 0 <= v < |events| :: events[v].tool == GetSchemaVersion && Permitted(events[v])
  }

  lemma RecoveredSnoc(past: seq<Event>, e: Event)
    ensures HasVersionCall(past + [e]) ==
            (HasVersionCall(past) || (e.tool == GetSchemaVersion && Permitted(e)))
    ensures HasRecovered(past + [e]) ==
            (HasRecovered(past) || (e.tool == InspectSchemaDiff && Permitted(e) && HasVersionCall(past)))
  {
    var all := past + [e];
    assert forall i | 0 <= i < |past| :: past[i] == all[i];
    assert all[|past|] == e;
    if HasVersionCall(past) {
      var v :| 0 <= v < |past| && past[v].tool == GetSchemaVersion && Permitted(past[v]);
      assert all[v].tool == GetSchemaVersion;
    }
    if HasRecovered(past) {
      var v, d :| 0 <= v < d < |past| &&
        past[v].tool == GetSchemaVersion && Permitted(past[v]) &&
        past[d].tool == InspectSchemaDiff && Permitted(past[d]);
      assert all[v].tool == GetSchemaVersion && all[d].tool == InspectSchemaDiff;
    }
    if HasRecovered(all) {
      var v, d :| 0 <= v < d < |all| &&
        all[v].tool == GetSchemaVersion && Permitted(all[v]) &&
        all[d].tool == InspectSchemaDiff && Permitted(all[d]);
      assert past[v].tool == GetSchemaVersion;
      if d < |past| { assert past[d].tool == InspectSchemaDiff; }
    }
  }

  /** The pair flag means what it says. */
  lemma {:induction false} PairFlagIsRecovery(events: seq<Event>)
    requires Coherent(events)
    ensures Track(Log(events)).pairSeen == HasRecovered(events)
    ensures Track(Log(events)).versionSeen == HasVersionCall(events)
  {
    if events != [] {
      var k := |events| - 1;
      var past, e := events[..k], events[k];
      assert forall x | x in past :: x in events;
      assert e in events;
      PairFlagIsRecovery(past);
      LogSnoc(events);
      assert events == past + [e];
      RecoveredSnoc(past, e);
      FlagsStep(Track(Log(past)), e.tool, e.observation);
    }
  }

  lemma FlagsStep(t: Tracker, tool: Tool, o: Observation)
    ensures Advance(t, tool, o).versionSeen == (t.versionSeen || (tool == GetSchemaVersion && !o.actionMasked))
    ensures Advance(t, tool, o).pairSeen ==
            (t.pairSeen || (tool == InspectSchemaDiff && !o.actionMasked && t.versionSeen))
  {
  }

  ghost predicate Recovering(t: Tracker, permitted: nat) {
    && (permitted == 0 ==> t.phase == NeedVersion && !t.pairSeen)
    && (permitted == 1 ==> t.phase == NeedDiff && !t.pairSeen)
  }

  lemma RecoveringStep(t: Tracker, permitted: nat, tool: Tool, o: Observation, tools: set<Tool>, mode: Mode)
    requires Recovering(t, permitted) && !mode.executionOnly
    requires {GetSchemaVersion, InspectSchemaDiff} <= tools
    requires o.actionMasked <==> tool !in Allowed(t, tools, mode)
    ensures Recovering(Advance(t, tool, o), permitted + if o.actionMasked then 0 else 1)
  {
  }

  /** Event `j` moves a recovery forward by one permitted call, or leaves it alone. */
  ghost predicate MovesRecovery(events: seq<Event>, j: nat)
    requires j < |events|
  {
    forall n: nat :: Recovering(Track(Log(events[..j])), n) ==>
      Recovering(Track(Log(events[..j + 1])), n + if Permitted(events[j]) then 1 else 0)
  }

  lemma LogAt(events: seq<Event>, j: nat)
    requires j < |events|
    ensures Track(Log(events[..j + 1])) == Advance(Track(Log(events[..j])), events[j].tool, events[j].observation)
  {
    LogSnoc(events[..j + 1]);
    assert events[..j + 1][..j] == events[..j];
  }

  lemma RunMovesRecovery(events: seq<Event>, j: nat, tools: set<Tool>, mode: Mode)
    requires j < |events| && EnforcedStep(events[..j], events[j], tools, mode) && !mode.executionOnly
    requires {GetSchemaVersion, InspectSchemaDiff} <= tools
    ensures MovesRecovery(events, j)
  {
    LogAt(events, j);
    forall n: nat | Recovering(Track(Log(events[..j])), n)
      ensures Recovering(Track(Log(events[..j + 1])), n + if Permitted(events[j]) then 1 else 0)
    {
      RecoveringStep(Track(Log(events[..j])), n, events[j].tool, events[j].observation, tools, mode);
    }
  }

  lemma {:induction false} PhaseAfterTrigger(events: seq<Event>, i: nat, j: nat)
    requires forall k | 0 <= k < |events| :: MovesRecovery(events, k)
    requires i < j <= |events|
    requires Recovering(Track(Log(events[..i + 1])), 0)
    ensures Recovering(Track(Log(events[..j])), PermittedIn(events, i + 1, j))
    decreases j
  {
    if j > i + 1 {
      PhaseAfterTrigger(events, i, j - 1);
      assert MovesRecovery(events, j - 1);
    }
  }

  lemma TriggerStarts(events: seq<Event>, i: nat)
    requires i < |events| && !events[i].observation.actionMasked
    requires IsTrigger(events[i].tool, events[i].observation) && !Track(Log(events[..i])).pairSeen
    ensures Recovering(Track(Log(events[..i + 1])), 0)
  {
    LogAt(events, i);
  }

  /**
   After a permitted execution that fails or mismatches before any recovery, the next two
   permitted calls are the version and then the diff, whatever else the model proposes.
   */
  lemma RecoveryOrder(events: seq<Event>, i: nat, j: nat, tools: set<Tool>, mode: Mode)
    requires EnforcedRun(events, tools, mode) && !mode.executionOnly
    requires {GetSchemaVersion, InspectSchemaDiff} <= tools
    requires i < j < |events|
    requires Permitted(events[i]) && IsTrigger(events[i].tool, events[i].observation)
    requires !HasRecovered(events[..i])
    requires Permitted(events[j]) && PermittedIn(events, i + 1, j) <= 1
    ensures events[j].tool == if PermittedIn(events, i + 1, j) == 0 then GetSchemaVersion else InspectSchemaDiff
  {
    RunPrefix(events, i, tools, mode);
    RunIsCoherent(events[..i], tools, mode);
    PairFlagIsRecovery(events[..i]);
    TriggerStarts(events, i);
    forall k | 0 <= k < |events|
      ensures MovesRecovery(events, k)
    {
      RunMovesRecovery(events, k, tools, mode);
    }
    PhaseAfterTrigger(events, i, j);
    RecoveryCall(Track(Log(events[..j])), PermittedIn(events, i + 1, j), events[j], tools, mode);
  }

  lemma RecoveryCall(t: Tracker, permitted: nat, e: Event, tools: set<Tool>, mode: Mode)
    requires Recovering(t, permitted) && permitted <= 1 && !mode.executionOnly
    requires {GetSchemaVersion, InspectSchemaDiff} <= tools
    requires e.tool in Allowed(t, tools, mode)
    ensures e.tool == if permitted == 0 then GetSchemaVersion else InspectSchemaDiff
  {
  }

  /** A stretch without permitted calls leaves the tracker as it was. */
  lemma {:induction false} MaskedStretch(events: seq<Event>, from: nat, upTo: nat)
    requires Coherent(events) && from <= upTo <= |events| && PermittedIn(events, from, upTo) == 0
    ensures Track(Log(events[..upTo])) == Track(Log(events[..from]))
    decreases upTo
  {
    if from < upTo {
      MaskedStretch(events, from, upTo - 1);
      LogAt(events, upTo - 1);
      assert events[upTo - 1] in events;
    }
  }

  /** After a clean execution marked safe to submit, the next permitted call is the submission. */
  lemma ValidatedForcesSubmit(events: seq<Event>, i: nat, j: nat, tools: set<Tool>, mode: Mode)
    requires EnforcedRun(events, tools, mode) && !mode.executionOnly
    requires {GetSchemaVersion, InspectSchemaDiff, SubmitSolution} <= tools
    requires i < j < |events| && PermittedIn(events, i + 1, j) == 0
    requires Permitted(events[i]) && events[i].tool == ExecuteSql && events[i].observation.validatedTrue
    requires !IsTrigger(events[i].tool, events[i].observation)
    requires Permitted(events[j])
    ensures events[j].tool == SubmitSolution
  {
    RunIsCoherent(events, tools, mode);
    assert EnforcedStep(events[..i], events[i], tools, mode);
    ExecutionIsIdle(Track(Log(events[..i])), tools, mode);
    StateAfterValidated(events, i, j);
    assert EnforcedStep(events[..j], events[j], tools, mode);
    SubmitForced(Track(Log(events[..j])), events[j], tools, mode);
  }

  lemma StateAfterValidated(events: seq<Event>, i: nat, j: nat)
    requires Coherent(events) && i < j <= |events| && PermittedIn(events, i + 1, j) == 0
    requires Permitted(events[i]) && events[i].tool == ExecuteSql && events[i].observation.validatedTrue
    requires !IsTrigger(events[i].tool, events[i].observation) && Track(Log(events[..i])).phase == Idle
    ensures Track(Log(events[..j])).phase == Idle && Track(Log(events[..j])).validated
  {
    MaskedStretch(events, i + 1, j);
    LogAt(events, i);
  }

  lemma SubmitForced(t: Tracker, e: Event, tools: set<Tool>, mode: Mode)
    requires t.phase == Idle && t.validated && !mode.executionOnly && SubmitSolution in tools
    requires e.tool in Allowed(t, tools, mode)
    ensures e.tool == SubmitSolution
  {
  }

  /** A permitted execution means that no recovery was pending. */
  lemma ExecutionIsIdle(t: Tracker, tools: set<Tool>, mode: Mode)
    requires !mode.executionOnly && {GetSchemaVersion, InspectSchemaDiff} <= tools
    requires ExecuteSql in Allowed(t, tools, mode)
    ensures t.phase == Idle
  {
  }

  /** A call judged by the live mask, with nothing observed but what `o` says. */
  function LiveCall(past: seq<Event>, tool: Tool, o: Observation): Event {
    if tool in Allowed(Track(Log(past)), SEVEN_TOOLS, LIVE)
    then Event(tool, Some("{}"), false, false, false, true, o.(actionMasked := false))
    else Event(tool, None, false, true, false, false, BLANK.(actionMasked := true))
  }

  lemma CallExtends(past: seq<Event>, tool: Tool, o: Observation) returns (all: seq<Event>)
    requires EnforcedRun(past, SEVEN_TOOLS, LIVE)
    ensures all == past + [LiveCall(past, tool, o)] && EnforcedRun(all, SEVEN_TOOLS, LIVE)
    ensures Track(Log(all)) == Advance(Track(Log(past)), tool, LiveCall(past, tool, o).observation)
  {
    var e := LiveCall(past, tool, o);
    all := past + [e];
    RunExtends(past, e, SEVEN_TOOLS, LIVE);
    assert all[..|past|] == past;
    LogSnoc(all);
  }

  /** A recovery: the failure, a submission that is refused meanwhile, the version and the diff. */
  lemma RecoveryHappens() returns (events: seq<Event>)
    ensures EnforcedRun(events, SEVEN_TOOLS, LIVE) && |events| == 4
    ensures IsTrigger(events[0].tool, events[0].observation) && Permitted(events[0])
    ensures events[1].tool == SubmitSolution && !Permitted(events[1])
    ensures events[2].tool == GetSchemaVersion && Permitted(events[2])
    ensures events[3].tool == InspectSchemaDiff && Permitted(events[3])
  {
    events := RefusedSubmission();
    events := CallExtends(events, GetSchemaVersion, BLANK);
    assert Track(Log(events)).phase == NeedDiff;
    events := CallExtends(events, InspectSchemaDiff, BLANK);
  }

  lemma RefusedSubmission() returns (events: seq<Event>)
    ensures EnforcedRun(events, SEVEN_TOOLS, LIVE) && |events| == 2
    ensures IsTrigger(events[0].tool, events[0].observation) && Permitted(events[0])
    ensures events[1].tool == SubmitSolution && !Permitted(events[1])
    ensures Track(Log(events)).phase == NeedVersion
  {
    assert Track(Log([])) == START;
    events := CallExtends([], ExecuteSql, BLANK.(successFalse := true));
    assert Track(Log(events)).phase == NeedVersion;
    events := CallExtends(events, SubmitSolution, BLANK);
  }

  /** A validated execution, a retrieval that is refused, and the submission. */
  lemma SubmissionHappens() returns (events: seq<Event>)
    ensures EnforcedRun(events, SEVEN_TOOLS, LIVE) && |events| == 3
    ensures events[0].tool == ExecuteSql && events[0].observation.validatedTrue && Permitted(events[0])
    ensures !IsTrigger(events[0].tool, events[0].observation)
    ensures !Permitted(events[1]) && events[2].tool == SubmitSolution && Permitted(events[2])
  {
    assert Track(Log([])) == START;
    events := CallExtends([], ExecuteSql, BLANK.(validatedTrue := true));
    assert Track(Log(events)).phase == Idle && Track(Log(events)).validated;
    events := CallExtends(events, GetSchema, BLANK);
    assert Track(Log(events)).phase == Idle && Track(Log(events)).validated;
    events := CallExtends(events, SubmitSolution, BLANK);
  }

  /** The newest permitted execution, or -1. */
  function NewestExecution(events: seq<Event>): int
    ensures -1 <= NewestExecution(events) < |events|
  {
    if events == [] then -1 else
    var k := |events| - 1;
    if events[k].tool == ExecuteSql && Permitted(events[k]) then k else NewestExecution(events[..k])
  }

  lemma {:induction false} ValidatedIsNewest(events: seq<Event>)
    requires Coherent(events)
    ensures var n := NewestExecution(events);
            Track(Log(events)).validated == (n >= 0 && events[n].observation.validatedTrue)
  {
    if events != [] {
      var past := events[..|events| - 1];
      assert forall e | e in past :: e in events;
      assert events[|events| - 1] in events;
      ValidatedIsNewest(past);
      LogSnoc(events);
    }
  }

  /**
   In execution-only mode a submission is permitted exactly when the schema has been shown and
   the newest permitted execution is marked safe.
   */
  lemma SubmitFollowsValidation(events: seq<Event>, e: Event, tools: set<Tool>, mode: Mode)
    requires EnforcedRun(events + [e], tools, mode) && mode.executionOnly
    requires e.tool == SubmitSolution && {GetSchema, SubmitSolution} <= tools
    ensures Permitted(e) <==>
            && Track(Log(events)).schemaSeen
            && NewestExecution(events) >= 0
            && events[NewestExecution(events)].observation.validatedTrue
  {
    assert (events + [e])[..|events|] == events;
    RunLast(events + [e], tools, mode);
    RunIsCoherent(events, tools, mode);
    ValidatedIsNewest(events);
  }

  // ---------------------------------------------------------------------------------
  // Progress

  /** Submission can be forced open within `n` permitted calls, whatever the tools answer. */
  ghost predicate CanOpen(t: Tracker, tools: set<Tool>, mode: Mode, n: nat)
    decreases n
  {
    SubmitSolution in Allowed(t, tools, mode) ||
    (n > 0 && exists tool | tool in Allowed(t, tools, mode) ::
       forall o: Observation | !o.actionMasked :: CanOpen(Advance(t, tool, o), tools, mode, n - 1))
  }

  /** What every live history satisfies. */
  ghost predicate Reached(t: Tracker) {
    && (t.phase != Idle ==> !t.awaiting && !t.pairSeen)
    && (t.phase == NeedDiff ==> t.versionSeen)
    && t.called <= ONE_SHOT_TOOLS
  }

  lemma {:induction false} RunsAreReached(events: seq<Event>, tools: set<Tool>, mode: Mode)
    requires EnforcedRun(events, tools, mode) && !mode.executionOnly && SEVEN_TOOLS <= tools
    ensures Reached(Track(Log(events)))
  {
    if events != [] {
      var k := |events| - 1;
      RunLast(events, tools, mode);
      RunsAreReached(events[..k], tools, mode);
      LogSnoc(events);
      ReachedNext(events[..k], events[k], tools, mode);
    }
  }

  lemma ReachedNext(past: seq<Event>, e: Event, tools: set<Tool>, mode: Mode)
    requires EnforcedStep(past, e, tools, mode) && !mode.executionOnly && SEVEN_TOOLS <= tools
    requires Reached(Track(Log(past)))
    ensures Reached(Advance(Track(Log(past)), e.tool, e.observation))
  {
  }

  lemma OpenIdle(t: Tracker, tools: set<Tool>, mode: Mode, n: nat)
    requires Reached(t) && !mode.executionOnly && SEVEN_TOOLS <= tools
    requires t.phase == Idle && !t.awaiting
    ensures CanOpen(t, tools, mode, n)
  {
  }

  lemma OpenNeedDiff(t: Tracker, tools: set<Tool>, mode: Mode, n: nat)
    requires Reached(t) && !mode.executionOnly && SEVEN_TOOLS <= tools
    requires t.phase == NeedDiff && n >= 1
    ensures CanOpen(t, tools, mode, n)
  {
    assert InspectSchemaDiff in Allowed(t, tools, mode);
    forall o: Observation | !o.actionMasked
      ensures CanOpen(Advance(t, InspectSchemaDiff, o), tools, mode, n - 1)
    {
      OpenIdle(Advance(t, InspectSchemaDiff, o), tools, mode, n - 1);
    }
  }

  lemma OpenNeedVersion(t: Tracker, tools: set<Tool>, mode: Mode, n: nat)
    requires Reached(t) && !mode.executionOnly && SEVEN_TOOLS <= tools
    requires t.phase == NeedVersion && n >= 2
    ensures CanOpen(t, tools, mode, n)
  {
    assert GetSchemaVersion in Allowed(t, tools, mode);
    forall o: Observation | !o.actionMasked
      ensures CanOpen(Advance(t, GetSchemaVersion, o), tools, mode, n - 1)
    {
      OpenNeedDiff(Advance(t, GetSchemaVersion, o), tools, mode, n - 1);
    }
  }

  lemma OpenAwaiting(t: Tracker, tools: set<Tool>, mode: Mode)
    requires Reached(t) && !mode.executionOnly && SEVEN_TOOLS <= tools
    requires t.phase == Idle && t.awaiting
    ensures CanOpen(t, tools, mode, 3)
  {
    if SubmitSolution !in Allowed(t, tools, mode) {
      var tool := if mode.knowledgeFirst && GetKnowledge !in t.called then GetKnowledge else ExecuteSql;
      assert tool in Allowed(t, tools, mode);
      forall o: Observation | !o.actionMasked
        ensures CanOpen(Advance(t, tool, o), tools, mode, 2)
      {
        var t' := Advance(t, tool, o);
        if t'.phase == Idle {
          OpenIdle(t', tools, mode, 2);
        } else {
          OpenNeedVersion(t', tools, mode, 2);
        }
      }
    }
  }

  /**
   No live episode can be locked out: from every reachable history three well-chosen permitted
   calls open the submission, against any observations; and some call is always permitted.
   */
  lemma Progress(events: seq<Event>, tools: set<Tool>, mode: Mode)
    requires EnforcedRun(events, tools, mode) && !mode.executionOnly && SEVEN_TOOLS <= tools
    ensures CanOpen(Track(Log(events)), tools, mode, 3)
    ensures Allowed(Track(Log(events)), tools, mode) != {}
  {
    var t := Track(Log(events));
    RunsAreReached(events, tools, mode);
    if t.phase == NeedVersion {
      OpenNeedVersion(t, tools, mode, 3);
    } else if t.phase == NeedDiff {
      OpenNeedDiff(t, tools, mode, 3);
    } else if t.awaiting {
      OpenAwaiting(t, tools, mode);
    } else {
      OpenIdle(t, tools, mode, 3);
    }
  }

  /** Three is the best bound: after a clarification two calls are not always enough. */
  lemma TwoCallsAreNotEnough() returns (events: seq<Event>)
    ensures EnforcedRun(events, SEVEN_TOOLS, LIVE)
    ensures !CanOpen(Track(Log(events)), SEVEN_TOOLS, LIVE, 2)
  {
    var know := Event(GetKnowledge, Some("{}"), false, false, false, true, BLANK);
    var ask := Event(AskUser, Some("{}"), false, false, false, true, BLANK);
    events := [];
    RunExtends(events, know, SEVEN_TOOLS, LIVE);
    events := [know];
    assert events[..0] == [];
    LogSnoc(events);
    RunExtends(events, ask, SEVEN_TOOLS, LIVE);
    events := [know, ask];
    assert [know] + [ask] == events && events[..1] == [know];
    LogSnoc(events);
    var t := Track(Log(events));
    assert Allowed(t, SEVEN_TOOLS, LIVE) == {ExecuteSql};
    var failed := BLANK.(successFalse := true);
    var t1 := Advance(t, ExecuteSql, failed);
    assert Allowed(t1, SEVEN_TOOLS, LIVE) == {GetSchemaVersion};
    var t2 := Advance(t1, GetSchemaVersion, BLANK);
    assert Allowed(t2, SEVEN_TOOLS, LIVE) == {InspectSchemaDiff};
    assert !CanOpen(t2, SEVEN_TOOLS, LIVE, 0);
    assert !CanOpen(t1, SEVEN_TOOLS, LIVE, 1);
  }

  // ---------------------------------------------------------------------------------
  // Progress in execution-only mode

  lemma BlankKeepsShut(t: Tracker, tool: Tool, tools: set<Tool>, mode: Mode)
    requires mode.executionOnly && SubmitSolution !in Allowed(t, tools, mode)
    ensures SubmitSolution !in Allowed(Advance(t, tool, BLANK), tools, mode)
  {
  }

  /**
   In execution-only mode nothing can be forced: against observations that show and validate
   nothing, submission is open within `n` calls exactly when it is open already.
   */
  lemma {:induction false} ExecutionOnlyForcesNothing(t: Tracker, tools: set<Tool>, mode: Mode, n: nat)
    requires mode.executionOnly
    ensures CanOpen(t, tools, mode, n) <==> SubmitSolution in Allowed(t, tools, mode)
    decreases n
  {
    if SubmitSolution !in Allowed(t, tools, mode) && n > 0 {
      forall tool | tool in Allowed(t, tools, mode)
        ensures !CanOpen(Advance(t, tool, BLANK), tools, mode, n - 1)
      {
        BlankKeepsShut(t, tool, tools, mode);
        ExecutionOnlyForcesNothing(Advance(t, tool, BLANK), tools, mode, n - 1);
      }
    }
  }

  /** The next permitted call with the next observation, as long as there are any. */
  ghost predicate Follows(t: Tracker, calls: seq<Entry>, tools: set<Tool>, mode: Mode, end: Tracker)
    decreases |calls|
  {
    if calls == [] then end == t
    else
      && calls[0].tool in Allowed(t, tools, mode) && !calls[0].observation.actionMasked
      && Follows(Advance(t, calls[0].tool, calls[0].observation), calls[1..], tools, mode, end)
  }

  /** With tools that cooperate two calls are enough: a schema that shows, an execution that validates. */
  lemma ExecutionOnlyCanCooperate(t: Tracker, tools: set<Tool>, mode: Mode) returns (calls: seq<Entry>, end: Tracker)
    requires mode.executionOnly && {GetSchema, ExecuteSql, SubmitSolution} <= tools && t.called <= ONE_SHOT_TOOLS
    ensures |calls| <= 2 && Follows(t, calls, tools, mode, end) && SubmitSolution in Allowed(end, tools, mode)
  {
    var shown := Entry(GetSchema, BLANK.(hasSchema := true));
    var validated := Entry(ExecuteSql, BLANK.(validatedTrue := true));
    var seen := Advance(t, shown.tool, shown.observation);
    if SubmitSolution in Allowed(t, tools, mode) {
      calls, end := [], t;
    } else if t.schemaSeen {
      calls, end := [validated], Advance(t, validated.tool, validated.observation);
      assert calls[1..] == [];
    } else if t.validated {
      calls, end := [shown], seen;
      assert calls[1..] == [];
    } else {
      calls, end := [shown, validated], Advance(seen, validated.tool, validated.observation);
      assert calls[1..] == [validated] && calls[1..][1..] == [];
    }
  }
}
