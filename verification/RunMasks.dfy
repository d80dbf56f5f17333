/** What an enforced episode permits next, said on its events alone. */
module RunMasks {
  import opened StatePolicy
  import opened EnforcedRuns
  import opened MaskMeaning

  /** Event `i` is a call of the tool that neither flag masks. */
  predicate Made(events: seq<Event>, i: int, tool: Tool) {
    0 <= i < |events| && events[i].tool == tool && !events[i].metricsMasked && !events[i].observation.actionMasked
  }

  ghost predicate Earlier(events: seq<Event>, tool: Tool) {
    exists i :: Made(events, i, tool)
  }

  /** A version and then a diff between two events. */
  ghost predicate Recovered(events: seq<Event>, after: int, before: int) {
    exists v, d | after < v < d < before :: Made(events, v, GetSchemaVersion) && Made(events, d, InspectSchemaDiff)
  }

  /** Every execution that failed or broke the contract has a version and a diff before it, or both after it. */
  ghost predicate NothingToRecover(events: seq<Event>) {
    forall u | Made(events, u, ExecuteSql) && (events[u].observation.successFalse || events[u].observation.contractFalse) ::
      Recovered(events, -1, u) || Recovered(events, u, |events|)
  }

  /** No execution that is safe to submit is the newest one. */
  ghost predicate NothingToSubmit(events: seq<Event>) {
    forall i | Made(events, i, ExecuteSql) && events[i].observation.validatedTrue ::
      exists j | i < j :: Made(events, j, ExecuteSql)
  }

  /** Nothing after event `i` asks for knowledge or executes. */
  ghost predicate NotFollowedUp(events: seq<Event>, i: int) {
    forall j | i < j :: !Made(events, j, GetKnowledge) && !Made(events, j, ExecuteSql)
  }

  // ---------------------------------------------------------------------------------
  // From events to their log

  lemma HitIsMade(events: seq<Event>, i: int, tool: Tool)
    requires Coherent(events)
    ensures Hit(Log(events), i, tool) <==> Made(events, i, tool)
  {
    if 0 <= i < |events| { assert events[i] in events; }
  }

  ghost predicate SameCalls(events: seq<Event>, log: seq<Entry>) {
    && |log| == |events|
    && (forall i, tool :: Hit(log, i, tool) <==> Made(events, i, tool))
    && forall i | 0 <= i < |log| :: log[i].observation == events[i].observation
  }

  lemma LogIsSame(events: seq<Event>)
    requires Coherent(events)
    ensures SameCalls(events, Log(events))
  {
    forall i, tool
      ensures Hit(Log(events), i, tool) <==> Made(events, i, tool)
    {
      HitIsMade(events, i, tool);
    }
  }

  lemma CalledIsEarlier(events: seq<Event>, log: seq<Entry>, tool: Tool)
    requires SameCalls(events, log)
    ensures Called(log, |log|, tool) <==> Earlier(events, tool)
  {
    if Earlier(events, tool) {
      var i :| Made(events, i, tool);
      assert Hit(log, i, tool);
    }
  }

  lemma PairIsRecovered(events: seq<Event>, log: seq<Entry>, after: int, before: int)
    requires SameCalls(events, log)
    ensures PairIn(log, after, before) <==> Recovered(events, after, before)
  {
    if PairIn(log, after, before) {
      var d :| after < d < before && Hit(log, d, InspectSchemaDiff) && VersionIn(log, after, d);
      var v :| after < v < d && Hit(log, v, GetSchemaVersion);
      assert Made(events, v, GetSchemaVersion) && Made(events, d, InspectSchemaDiff);
    }
    if Recovered(events, after, before) {
      var v, d :| after < v < d < before && Made(events, v, GetSchemaVersion) && Made(events, d, InspectSchemaDiff);
      assert Hit(log, v, GetSchemaVersion) && Hit(log, d, InspectSchemaDiff);
      assert VersionIn(log, after, d);
    }
  }

  lemma NoRecoveryDue(events: seq<Event>, log: seq<Entry>)
    requires SameCalls(events, log)
    ensures RecoveryDue(log, |log|) <==> !NothingToRecover(events)
  {
    forall u | 0 <= u < |log|
      ensures PairIn(log, -1, u) <==> Recovered(events, -1, u)
      ensures PairIn(log, u, |log|) <==> Recovered(events, u, |events|)
    {
      PairIsRecovered(events, log, -1, u);
      PairIsRecovered(events, log, u, |log|);
    }
    if RecoveryDue(log, |log|) {
      var u :| 0 <= u < |log| && Unexplained(log, u) && !PairIn(log, u, |log|);
      assert Hit(log, u, ExecuteSql) && Made(events, u, ExecuteSql);
      assert !Recovered(events, -1, u) && !Recovered(events, u, |events|);
    }
    if !NothingToRecover(events) {
      var u :| Made(events, u, ExecuteSql) &&
               (events[u].observation.successFalse || events[u].observation.contractFalse) &&
               !(Recovered(events, -1, u) || Recovered(events, u, |events|));
      assert Hit(log, u, ExecuteSql);
      assert Unexplained(log, u);
    }
  }

  lemma DueVersionIsRecovery(log: seq<Entry>, n: nat)
    requires VersionDue(log, n)
    ensures RecoveryDue(log, n)
  {
    var u :| 0 <= u < n && Unexplained(log, u) && !VersionIn(log, u, n);
    if PairIn(log, u, n) { PairHasVersion(log, u, n); }
  }

  lemma SubmissionIs(events: seq<Event>, log: seq<Entry>)
    requires SameCalls(events, log)
    ensures Validated(log, |log|) <==> !NothingToSubmit(events)
  {
    if Validated(log, |log|) {
      var i :| 0 <= i < |log| && Hit(log, i, ExecuteSql) && log[i].observation.validatedTrue &&
               forall j | i < j < |log| :: !Hit(log, j, ExecuteSql);
      assert Made(events, i, ExecuteSql);
      forall j | i < j
        ensures !Made(events, j, ExecuteSql)
      {
        assert Hit(log, j, ExecuteSql) <==> Made(events, j, ExecuteSql);
      }
    }
    if !NothingToSubmit(events) {
      var i :| Made(events, i, ExecuteSql) && events[i].observation.validatedTrue &&
               forall j | i < j :: !Made(events, j, ExecuteSql);
      assert Hit(log, i, ExecuteSql);
      forall j | i < j < |log|
        ensures !Hit(log, j, ExecuteSql)
      {
        assert Hit(log, j, ExecuteSql) <==> Made(events, j, ExecuteSql);
      }
    }
  }

  lemma AwaitingIs(events: seq<Event>, log: seq<Entry>)
    requires SameCalls(events, log)
    ensures Awaiting(log, |log|) <==> exists i :: Made(events, i, AskUser) && NotFollowedUp(events, i)
  {
    if Awaiting(log, |log|) {
      var i :| 0 <= i < |log| && Hit(log, i, AskUser) &&
               forall j | i < j < |log| :: !Hit(log, j, GetKnowledge) && !Hit(log, j, ExecuteSql);
      assert Made(events, i, AskUser);
      forall j | i < j
        ensures !Made(events, j, GetKnowledge) && !Made(events, j, ExecuteSql)
      {
        assert Hit(log, j, GetKnowledge) <==> Made(events, j, GetKnowledge);
        assert Hit(log, j, ExecuteSql) <==> Made(events, j, ExecuteSql);
      }
    }
    if exists i :: Made(events, i, AskUser) && NotFollowedUp(events, i) {
      var i :| Made(events, i, AskUser) && NotFollowedUp(events, i);
      assert Hit(log, i, AskUser);
      forall j | i < j < |log|
        ensures !Hit(log, j, GetKnowledge) && !Hit(log, j, ExecuteSql)
      {
        assert Hit(log, j, GetKnowledge) <==> Made(events, j, GetKnowledge);
        assert Hit(log, j, ExecuteSql) <==> Made(events, j, ExecuteSql);
      }
    }
  }

  // ---------------------------------------------------------------------------------
  // The next call

  /** The next call of an enforced run is permitted exactly when its tool is in the mask that the calls mean. */
  lemma NextCall(events: seq<Event>, e: Event, selected: set<Tool>, tools: set<Tool>, mode: Mode)
    requires EnforcedRun(events + [e], tools, mode) && IsMask(selected, Log(events), Log(events), tools, mode)
    ensures Coherent(events) && (Permitted(e) <==> e.tool in selected)
  {
    assert (events + [e])[..|events|] == events;
    RunLast(events + [e], tools, mode);
    RunIsCoherent(events, tools, mode);
    AllowedMeans(Log(events), Log(events), tools, mode);
  }

  /** The tools that a clarification leaves. */
  ghost function Clarified(left: set<Tool>, knowledgeFirst: bool): (r: set<Tool>)
    ensures forall tool :: tool in r <==>
      tool in left && (tool == GetKnowledge || (tool == ExecuteSql && !(knowledgeFirst && GetKnowledge in left)))
  {
    if !knowledgeFirst then left * {GetKnowledge, ExecuteSql}
    else if GetKnowledge in left then {GetKnowledge} else left * {ExecuteSql}
  }

  lemma FreeMask(events: seq<Event>, log: seq<Entry>, tools: set<Tool>, mode: Mode, selected: set<Tool>)
    requires SameCalls(events, log) && !mode.executionOnly
    requires NothingToRecover(events) && (SubmitSolution in tools ==> NothingToSubmit(events))
    ensures var left := Uncalled(log, tools);
            IsMask(selected, log, log, tools, mode) <==>
            selected == if !Awaiting(log, |log|) then left else Clarified(left, mode.knowledgeFirst)
  {
    NoRecoveryDue(events, log);
    if VersionDue(log, |log|) { DueVersionIsRecovery(log, |log|); }
    SubmissionIs(events, log);
  }

  lemma LeftIs(events: seq<Event>, log: seq<Entry>, tools: set<Tool>, tool: Tool)
    requires SameCalls(events, log)
    ensures tool in Uncalled(log, tools) <==>
            tool in tools && (tool in {GetSchemaVersion, InspectSchemaDiff, GetSchema, GetKnowledge, AskUser} ==>
                                !Earlier(events, tool))
  {
    CalledIsEarlier(events, log, tool);
  }

  /**
   After a clarification that nothing has followed up, with no recovery due and nothing to submit: knowledge, while
   it is uncalled, and the execution; with knowledge first, the execution only when knowledge is not to be had.
   */
  lemma AfterClarification(events: seq<Event>, i: nat, e: Event, tools: set<Tool>, mode: Mode)
    requires EnforcedRun(events + [e], tools, mode) && !mode.executionOnly
    requires Made(events, i, AskUser) && NotFollowedUp(events, i)
    requires NothingToRecover(events) && (SubmitSolution in tools ==> NothingToSubmit(events))
    ensures var knowledge := GetKnowledge in tools && !Earlier(events, GetKnowledge);
            Permitted(e) <==>
              if e.tool == GetKnowledge then knowledge
              else e.tool == ExecuteSql && ExecuteSql in tools && !(mode.knowledgeFirst && knowledge)
  {
    var log := Log(events);
    assert (events + [e])[..|events|] == events;
    RunLast(events + [e], tools, mode);
    RunIsCoherent(events, tools, mode);
    LogIsSame(events);
    AwaitingIs(events, log);
    LeftIs(events, log, tools, GetKnowledge);
    LeftIs(events, log, tools, ExecuteSql);
    var selected := Clarified(Uncalled(log, tools), mode.knowledgeFirst);
    FreeMask(events, log, tools, mode, selected);
    NextCall(events, e, selected, tools, mode);
  }

  /**
   With every clarification followed up, no recovery due and nothing to submit: the configured tools, except
   the five one-shot tools that were called before.
   */
  lemma OtherwiseUncalled(events: seq<Event>, e: Event, tools: set<Tool>, mode: Mode)
    requires EnforcedRun(events + [e], tools, mode) && !mode.executionOnly
    requires forall i | Made(events, i, AskUser) :: !NotFollowedUp(events, i)
    requires NothingToRecover(events) && (SubmitSolution in tools ==> NothingToSubmit(events))
    ensures Permitted(e) <==>
            e.tool in tools && (e.tool in {GetSchemaVersion, InspectSchemaDiff, GetSchema, GetKnowledge, AskUser} ==>
                                  !Earlier(events, e.tool))
  {
    var log := Log(events);
    assert (events + [e])[..|events|] == events;
    RunLast(events + [e], tools, mode);
    RunIsCoherent(events, tools, mode);
    LogIsSame(events);
    AwaitingIs(events, log);
    LeftIs(events, log, tools, e.tool);
    FreeMask(events, log, tools, mode, Uncalled(log, tools));
    NextCall(events, e, Uncalled(log, tools), tools, mode);
  }
}
