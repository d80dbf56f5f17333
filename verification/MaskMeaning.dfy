/**
 The tool mask said on the calls of a history, with every tool by its name: which call makes which tool the only
 one, and which tools are left otherwise.
 */
module MaskMeaning {
  import opened Prelude
  import opened StatePolicy

  /** A call of the tool that was not masked. */
  predicate Hit(log: seq<Entry>, i: int, tool: Tool) {
    0 <= i < |log| && log[i].tool == tool && !log[i].observation.actionMasked
  }

  ghost predicate Called(log: seq<Entry>, n: nat, tool: Tool) {
    exists i | 0 <= i < n :: Hit(log, i, tool)
  }

  /** An execution that failed or broke the result contract. */
  predicate Broke(log: seq<Entry>, i: int) {
    Hit(log, i, ExecuteSql) && (log[i].observation.successFalse || log[i].observation.contractFalse)
  }

  ghost predicate VersionIn(log: seq<Entry>, after: int, n: int) {
    exists v | after < v < n :: Hit(log, v, GetSchemaVersion)
  }

  /** A version and, later, a diff, both after one call and before another. */
  ghost predicate PairIn(log: seq<Entry>, after: int, n: int) {
    exists d | after < d < n :: Hit(log, d, InspectSchemaDiff) && VersionIn(log, after, d)
  }

  /** Broken before any version and diff were read. */
  ghost predicate Unexplained(log: seq<Entry>, u: int) {
    Broke(log, u) && !PairIn(log, -1, u)
  }

  ghost predicate VersionDue(log: seq<Entry>, n: nat) {
    exists u | 0 <= u < n :: Unexplained(log, u) && !VersionIn(log, u, n)
  }

  ghost predicate RecoveryDue(log: seq<Entry>, n: nat) {
    exists u | 0 <= u < n :: Unexplained(log, u) && !PairIn(log, u, n)
  }

  /** The newest execution is marked safe to submit. */
  ghost predicate Validated(log: seq<Entry>, n: nat) {
    exists i | 0 <= i < n :: Hit(log, i, ExecuteSql) && log[i].observation.validatedTrue &&
                             forall j | i < j < n :: !Hit(log, j, ExecuteSql)
  }

  /** A clarification since which neither knowledge nor an execution was asked for. */
  ghost predicate Awaiting(log: seq<Entry>, n: nat) {
    exists i | 0 <= i < n :: Hit(log, i, AskUser) &&
                             forall j | i < j < n :: !Hit(log, j, GetKnowledge) && !Hit(log, j, ExecuteSql)
  }

  ghost predicate SchemaShown(log: seq<Entry>, n: nat) {
    exists i | 0 <= i < n :: Hit(log, i, GetSchema) && log[i].observation.hasSchema
  }

  /** The tools that may still be called: the five retrieving or asking ones once only. */
  ghost function Uncalled(log: seq<Entry>, tools: set<Tool>): set<Tool> {
    set tool | tool in tools &&
      (tool in {GetSchemaVersion, InspectSchemaDiff, GetSchema, GetKnowledge, AskUser} ==> !Called(log, |log|, tool))
  }

  /**
   The mask of a history. The recovery and the validation are read from the calls as the observations show them,
   the rest from the calls as either flag judges them.
   */
  ghost predicate IsMask(selected: set<Tool>, shown: seq<Entry>, judged: seq<Entry>, tools: set<Tool>, mode: Mode) {
    var left := Uncalled(judged, tools);
    if mode.executionOnly then
      if GetSchema in tools && !SchemaShown(judged, |judged|) then selected == {GetSchema}
      else if Validated(judged, |judged|) then selected == tools * {SubmitSolution}
      else selected == left - {SubmitSolution}
    else if GetSchemaVersion in tools && VersionDue(shown, |shown|) then selected == {GetSchemaVersion}
    else if InspectSchemaDiff in tools && !VersionDue(shown, |shown|) && RecoveryDue(shown, |shown|)
    then selected == {InspectSchemaDiff}
    else if SubmitSolution in tools && Validated(shown, |shown|) then selected == {SubmitSolution}
    else if !Awaiting(judged, |judged|) then selected == left
    else if mode.knowledgeFirst && GetKnowledge in left then selected == {GetKnowledge}
    else if mode.knowledgeFirst then selected == left * {ExecuteSql}
    else selected == left * {GetKnowledge, ExecuteSql}
  }

  // ---------------------------------------------------------------------------------
  // One more call

  lemma VersionNext(log: seq<Entry>, after: int, n: nat)
    ensures VersionIn(log, after, n + 1) <==> VersionIn(log, after, n) || (after < n && Hit(log, n, GetSchemaVersion))
  {
  }

  lemma PairNext(log: seq<Entry>, after: int, n: nat)
    ensures PairIn(log, after, n + 1) <==>
            PairIn(log, after, n) || (after < n && Hit(log, n, InspectSchemaDiff) && VersionIn(log, after, n))
  {
  }

  lemma PairHasVersion(log: seq<Entry>, after: int, n: int)
    requires PairIn(log, after, n)
    ensures VersionIn(log, after, n)
  {
    var d :| after < d < n && Hit(log, d, InspectSchemaDiff) && VersionIn(log, after, d);
    var v :| after < v < d && Hit(log, v, GetSchemaVersion);
  }

  lemma VersionDueNext(log: seq<Entry>, n: nat)
    ensures VersionDue(log, n + 1) <==> Unexplained(log, n) || (VersionDue(log, n) && !Hit(log, n, GetSchemaVersion))
  {
    forall u | 0 <= u < n
      ensures VersionIn(log, u, n + 1) <==> VersionIn(log, u, n) || Hit(log, n, GetSchemaVersion)
    {
      VersionNext(log, u, n);
    }
    assert !VersionIn(log, n, n + 1);
    if VersionDue(log, n) && !Hit(log, n, GetSchemaVersion) {
      var u :| 0 <= u < n && Unexplained(log, u) && !VersionIn(log, u, n);
      assert !VersionIn(log, u, n + 1);
    }
    if VersionDue(log, n + 1) && !Unexplained(log, n) {
      var u :| 0 <= u < n + 1 && Unexplained(log, u) && !VersionIn(log, u, n + 1);
      assert u < n && !VersionIn(log, u, n);
    }
  }

  lemma RecoveryDueNext(log: seq<Entry>, n: nat)
    ensures RecoveryDue(log, n + 1) <==>
            Unexplained(log, n) || (if Hit(log, n, InspectSchemaDiff) then VersionDue(log, n) else RecoveryDue(log, n))
  {
    forall u | 0 <= u < n
      ensures PairIn(log, u, n + 1) <==> if Hit(log, n, InspectSchemaDiff) then VersionIn(log, u, n) else PairIn(log, u, n)
    {
      PairNext(log, u, n);
      if PairIn(log, u, n) { PairHasVersion(log, u, n); }
    }
    assert !PairIn(log, n, n + 1);
    if RecoveryDue(log, n + 1) && !Unexplained(log, n) {
      var u :| 0 <= u < n + 1 && Unexplained(log, u) && !PairIn(log, u, n + 1);
      assert u < n;
    }
    if Hit(log, n, InspectSchemaDiff) && VersionDue(log, n) {
      var u :| 0 <= u < n && Unexplained(log, u) && !VersionIn(log, u, n);
      assert !PairIn(log, u, n + 1);
    }
    if !Hit(log, n, InspectSchemaDiff) && RecoveryDue(log, n) {
      var u :| 0 <= u < n && Unexplained(log, u) && !PairIn(log, u, n);
      assert !PairIn(log, u, n + 1);
    }
  }

  /** What the calls say about the phase and the two version flags. */
  ghost predicate PhaseMeans(log: seq<Entry>, n: nat, t: Tracker) {
    && (t.versionSeen <==> VersionIn(log, -1, n))
    && (t.pairSeen <==> PairIn(log, -1, n))
    && (t.phase == NeedVersion <==> VersionDue(log, n))
    && (t.phase == Idle <==> !RecoveryDue(log, n))
  }

  lemma PhaseNext(log: seq<Entry>, n: nat, t: Tracker)
    requires n < |log| && PhaseMeans(log, n, t)
    ensures PhaseMeans(log, n + 1, Advance(t, log[n].tool, log[n].observation))
  {
    VersionNext(log, -1, n);
    PairNext(log, -1, n);
    VersionDueNext(log, n);
    RecoveryDueNext(log, n);
  }

  /** What the calls say about everything else. */
  ghost predicate RestMeans(log: seq<Entry>, n: nat, t: Tracker) {
    && (t.validated <==> Validated(log, n))
    && (t.awaiting <==> Awaiting(log, n))
    && (t.schemaSeen <==> SchemaShown(log, n))
  }

  lemma ValidatedNext(log: seq<Entry>, n: nat)
    requires n < |log|
    ensures Validated(log, n + 1) <==>
            if Hit(log, n, ExecuteSql) then log[n].observation.validatedTrue else Validated(log, n)
  {
    if Validated(log, n + 1) && !Hit(log, n, ExecuteSql) {
      var i :| 0 <= i < n + 1 && Hit(log, i, ExecuteSql) && log[i].observation.validatedTrue &&
               forall j | i < j < n + 1 :: !Hit(log, j, ExecuteSql);
      assert i < n;
    }
    if Validated(log, n) && !Hit(log, n, ExecuteSql) {
      var i :| 0 <= i < n && Hit(log, i, ExecuteSql) && log[i].observation.validatedTrue &&
               forall j | i < j < n :: !Hit(log, j, ExecuteSql);
      assert forall j | i < j < n + 1 :: !Hit(log, j, ExecuteSql);
    }
  }

  lemma AwaitingNext(log: seq<Entry>, n: nat)
    ensures Awaiting(log, n + 1) <==>
            Hit(log, n, AskUser) || (Awaiting(log, n) && !Hit(log, n, GetKnowledge) && !Hit(log, n, ExecuteSql))
  {
    if Awaiting(log, n + 1) && !Hit(log, n, AskUser) {
      var i :| 0 <= i < n + 1 && Hit(log, i, AskUser) &&
               forall j | i < j < n + 1 :: !Hit(log, j, GetKnowledge) && !Hit(log, j, ExecuteSql);
      assert i < n;
    }
    if Awaiting(log, n) && !Hit(log, n, GetKnowledge) && !Hit(log, n, ExecuteSql) {
      var i :| 0 <= i < n && Hit(log, i, AskUser) &&
               forall j | i < j < n :: !Hit(log, j, GetKnowledge) && !Hit(log, j, ExecuteSql);
      assert forall j | i < j < n + 1 :: !Hit(log, j, GetKnowledge) && !Hit(log, j, ExecuteSql);
    }
  }

  lemma RestNext(log: seq<Entry>, n: nat, t: Tracker)
    requires n < |log| && RestMeans(log, n, t)
    ensures RestMeans(log, n + 1, Advance(t, log[n].tool, log[n].observation))
  {
    ValidatedNext(log, n);
    AwaitingNext(log, n);
    assert SchemaShown(log, n + 1) <==> SchemaShown(log, n) || (Hit(log, n, GetSchema) && log[n].observation.hasSchema);
  }

  ghost predicate CalledMeans(log: seq<Entry>, n: nat, t: Tracker) {
    forall tool :: tool in t.called <==>
      tool in {GetSchemaVersion, InspectSchemaDiff, GetSchema, GetKnowledge, AskUser} && Called(log, n, tool)
  }

  lemma CalledNext(log: seq<Entry>, n: nat, t: Tracker)
    requires n < |log| && CalledMeans(log, n, t)
    ensures CalledMeans(log, n + 1, Advance(t, log[n].tool, log[n].observation))
  {
    forall tool
      ensures Called(log, n + 1, tool) <==> Called(log, n, tool) || Hit(log, n, tool)
    {
    }
  }

  /** The tracker is what the calls say. */
  lemma {:induction false} TrackerMeans(log: seq<Entry>, n: nat)
    requires n <= |log|
    ensures PhaseMeans(log, n, Track(log[..n])) && RestMeans(log, n, Track(log[..n]))
    ensures CalledMeans(log, n, Track(log[..n]))
  {
    if n > 0 {
      TrackerMeans(log, n - 1);
      assert log[..n][..n - 1] == log[..n - 1];
      var t, e := Track(log[..n - 1]), log[n - 1];
      assert Track(log[..n]) == Advance(t, e.tool, e.observation);
      PhaseNext(log, n - 1, t);
      RestNext(log, n - 1, t);
      CalledNext(log, n - 1, t);
    }
  }

  lemma UncalledMeans(log: seq<Entry>, tools: set<Tool>)
    ensures Uncalled(log, tools) == tools - Track(log).called
  {
    TrackerMeans(log, |log|);
    assert log[..|log|] == log;
  }

  lemma LeftMeans(t: Tracker, shown: seq<Entry>, judged: seq<Entry>, tools: set<Tool>, mode: Mode)
    requires !mode.executionOnly && PhaseMeans(shown, |shown|, t)
    requires (t.validated <==> Validated(shown, |shown|)) && (t.awaiting <==> Awaiting(judged, |judged|))
    requires Uncalled(judged, tools) == tools - t.called
    ensures IsMask(Allowed(t, tools, mode), shown, judged, tools, mode)
  {
  }

  lemma ExecutionOnlyMeans(t: Tracker, judged: seq<Entry>, tools: set<Tool>, mode: Mode)
    requires mode.executionOnly && RestMeans(judged, |judged|, t)
    requires Uncalled(judged, tools) == tools - t.called
    ensures IsMask(Allowed(t, tools, mode), judged, judged, tools, mode)
  {
  }

  /** What is read off the two trackers is the mask. */
  lemma AllowedMeans(shown: seq<Entry>, judged: seq<Entry>, tools: set<Tool>, mode: Mode)
    ensures var both := Track(shown).(called := Track(judged).called, awaiting := Track(judged).awaiting);
            IsMask(Allowed(if mode.executionOnly then Track(judged) else both, tools, mode), shown, judged, tools, mode)
  {
    TrackerMeans(shown, |shown|);
    TrackerMeans(judged, |judged|);
    assert shown[..|shown|] == shown && judged[..|judged|] == judged;
    UncalledMeans(judged, tools);
    var both := Track(shown).(called := Track(judged).called, awaiting := Track(judged).awaiting);
    if mode.executionOnly {
      ExecutionOnlyMeans(Track(judged), judged, tools, mode);
    } else {
      LeftMeans(both, shown, judged, tools, mode);
    }
  }
}
