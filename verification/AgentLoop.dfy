/** The dispatch step of the live agent loop: mask check, duplicate guard, call, event append. */
module AgentLoop {
  import opened Prelude
  import opened StatePolicy
  import opened ToolMask
  import opened EnforcedRuns

  /** What a dispatched tool does: it answers, or it raises. */
  datatype Reply = Returned(observation: Observation) | Raised

  /** Canonical text of an absent or empty argument object. */
  const EMPTY_ARGUMENTS := "{}"

  predicate MatchesRetrieval(e: Event, tool: Tool, arguments: string) {
    && e.tool == tool
    && (if e.arguments.Some? then e.arguments.value else EMPTY_ARGUMENTS) == arguments
    && !e.error
  }

  predicate IsExactDuplicateRetrieval(events: seq<Event>, tool: Tool, arguments: string) {
    tool in RETRIEVAL_TOOLS && exists e | e in events :: MatchesRetrieval(e, tool, arguments)
  }

  /** The event that one call leaves behind, given the tools active when it is dispatched. */
  function EventFor(events: seq<Event>, active: set<Tool>, masking: bool, guarding: bool,
                    tool: Tool, arguments: Option<string>, reply: Reply): Event
  {
    if tool !in active then
      Event(tool, None, false, masking, false, false, BLANK.(actionMasked := masking))
    else if arguments.None? then
      Event(tool, None, false, false, false, false, BLANK)
    else if guarding && IsExactDuplicateRetrieval(events, tool, arguments.value) then
      Event(tool, arguments, false, false, true, false, BLANK)
    else
      Event(tool, arguments, false, false, false, reply.Returned?, if reply.Returned? then reply.observation else BLANK)
  }

  /** The tools that may be dispatched after this history. */
  ghost function Active(events: seq<Event>, tools: set<Tool>, masking: bool): set<Tool> {
    if masking then tools * Allowed(Track(Log(events)), tools, LIVE) else tools
  }

  ghost predicate HistoryOk(events: seq<Event>, tools: set<Tool>, masking: bool) {
    Coherent(events) && (masking ==> EnforcedRun(events, tools, LIVE))
  }

  class ToolAgentLoop {
    const masking: bool
    const guarding: bool
    var events: seq<Event>
    var tools: set<Tool>             // the tools the episode was configured with
    var baseTools: Option<set<Tool>> // remembered at the first call
    var activeTools: set<Tool>

    ghost predicate Valid()
      reads this
    {
      && HistoryOk(events, tools, masking)
      && (baseTools.Some? ==> baseTools.value == tools)
      && (baseTools.None? || !masking ==> activeTools == tools)
      && (baseTools.Some? ==> activeTools == Active(events, tools, masking))
    }

    constructor (tools: set<Tool>, masking: bool, guarding: bool)
      ensures Valid() && events == [] && this.tools == tools
      ensures this.masking == masking && this.guarding == guarding
    {
      this.tools, this.masking, this.guarding := tools, masking, guarding;
      this.events, this.baseTools, this.activeTools := [], None, tools;
    }

    /** Remember the configured tools at the first call, and bring the mask up to date. */
    method Refresh()
      requires Valid()
      modifies this`baseTools, this`activeTools
      ensures baseTools == Some(tools) && activeTools == Active(events, tools, masking)
    {
      if baseTools.None? {
        baseTools := Some(activeTools);
      }
      if masking {
        var allowed := SelectDynamicToolNames(events, baseTools.value, LIVE);
        activeTools := baseTools.value * allowed;
      }
    }

    /** The body of the call: refresh the mask, then refuse, answer from history, or dispatch. */
    method Answer(tool: Tool, arguments: Option<string>, reply: Reply) returns (event: Event)
      requires Valid()
      modifies this`baseTools, this`activeTools
      ensures baseTools == Some(tools) && activeTools == Active(events, tools, masking)
      ensures event == EventFor(events, activeTools, masking, guarding, tool, arguments, reply)
    {
      Refresh();
      if tool !in activeTools {
        return Event(tool, None, false, masking, false, false, BLANK.(actionMasked := masking));
      }
      event := Event(tool, None, false, false, false, false, BLANK);
      if arguments.Some? {
        event := event.(arguments := arguments);
        if guarding && IsExactDuplicateRetrieval(events, tool, arguments.value) {
          event := event.(guarded := true);
        } else if reply.Returned? {
          event := event.(returned := true, observation := reply.observation);
        }
      }
    }

    /**
     One tool call.  Exactly one event is appended, it is the one `EventFor` names under the
     mask of the old history, and with masking on the history stays an enforced run.
     A dispatched tool never itself reports a masked action.
     */
    method CallTool(tool: Tool, arguments: Option<string>, reply: Reply) returns (event: Event)
      requires Valid()
      requires reply.Returned? ==> !reply.observation.actionMasked
      modifies this
      ensures Valid() && tools == old(tools) && baseTools == Some(tools)
      ensures events == old(events) + [event]
      ensures event == EventFor(old(events), Active(old(events), tools, masking),
                                masking, guarding, tool, arguments, reply)
    {
      event := Answer(tool, arguments, reply);
      CallKeepsHistory(events, tools, masking, guarding, tool, arguments, reply);
      events := events + [event];
      if masking {
        var allowed := SelectDynamicToolNames(events, baseTools.value, LIVE);
        activeTools := baseTools.value * allowed;
      }
    }

    /** One turn: the call, and the rule that any submission ends the episode, masked or not. */
    method HandleTurn(tool: Tool, arguments: Option<string>, reply: Reply) returns (terminated: bool)
      requires Valid()
      requires reply.Returned? ==> !reply.observation.actionMasked
      modifies this
      ensures Valid() && tools == old(tools)
      ensures |events| == |old(events)| + 1 && events[..|old(events)|] == old(events)
      ensures events[|old(events)|].tool == tool
      ensures terminated <==> events[|old(events)|].tool == SubmitSolution
    {
      var event := CallTool(tool, arguments, reply);
      terminated := tool == SubmitSolution;
    }
  }

  /** Appending the event of a call keeps the history coherent and, with masking, enforced. */
  lemma CallKeepsHistory(events: seq<Event>, tools: set<Tool>, masking: bool, guarding: bool,
                         tool: Tool, arguments: Option<string>, reply: Reply)
    requires HistoryOk(events, tools, masking)
    requires reply.Returned? ==> !reply.observation.actionMasked
    ensures HistoryOk(events + [EventFor(events, Active(events, tools, masking), masking, guarding,
                                         tool, arguments, reply)], tools, masking)
  {
    var e := EventFor(events, Active(events, tools, masking), masking, guarding, tool, arguments, reply);
    if masking {
      AllowedInside(Track(Log(events)), tools, LIVE);
      assert tool in Active(events, tools, masking) <==> tool in Allowed(Track(Log(events)), tools, LIVE);
      RunExtends(events, e, tools, LIVE);
    }
  }

  /** Selection never invents a tool. */
  lemma AllowedInside(t: Tracker, tools: set<Tool>, mode: Mode)
    ensures Allowed(t, tools, mode) <= tools
  {
  }

  // ---------------------------------------------------------------------------------
  // The duplicate guard

  /** An earlier call of a retrieval tool without an error, with these arguments; none are logged reads as an empty object. */
  ghost predicate Repeats(events: seq<Event>, tool: Tool, arguments: string) {
    && (tool == GetSchemaVersion || tool == InspectSchemaDiff || tool == GetSchema || tool == GetKnowledge)
    && exists i | 0 <= i < |events| ::
         && events[i].tool == tool && !events[i].error
         && (events[i].arguments == Some(arguments) || (events[i].arguments == None && arguments == "{}"))
  }

  lemma DuplicateExactly(events: seq<Event>, tool: Tool, arguments: string)
    ensures IsExactDuplicateRetrieval(events, tool, arguments) <==> Repeats(events, tool, arguments)
  {
    if Repeats(events, tool, arguments) {
      var i :| 0 <= i < |events| && events[i].tool == tool && !events[i].error &&
               (events[i].arguments == Some(arguments) || (events[i].arguments == None && arguments == "{}"));
      assert events[i] in events && MatchesRetrieval(events[i], tool, arguments);
    }
    if IsExactDuplicateRetrieval(events, tool, arguments) {
      var e :| e in events && MatchesRetrieval(e, tool, arguments);
      var i :| 0 <= i < |events| && events[i] == e;
      assert events[i].arguments == Some(arguments) || (events[i].arguments == None && arguments == "{}");
    }
  }

  /**
   What one call logs, field by field: a tool that is not active is masked under masking, and shows nothing; an active
   one is logged with its arguments; the guard answers a repeated retrieval; otherwise the tool answers or raises, and
   neither is an error.
   */
  lemma DispatchExactly(events: seq<Event>, active: set<Tool>, masking: bool, guarding: bool,
                        tool: Tool, arguments: Option<string>, reply: Reply)
    ensures var e := EventFor(events, active, masking, guarding, tool, arguments, reply);
            && e.tool == tool && !e.error
            && e.arguments == (if tool in active then arguments else None)
            && (e.metricsMasked <==> masking && tool !in active)
            && (e.guarded <==> guarding && tool in active && arguments.Some? && Repeats(events, tool, arguments.value))
            && (e.returned <==> tool in active && arguments.Some? && !e.guarded && reply.Returned?)
            && (e.returned ==> e.observation == reply.observation)
            && (!e.returned ==> e.observation == Observation(masking && tool !in active, false, false, false, false))
  {
    if arguments.Some? { DuplicateExactly(events, tool, arguments.value); }
  }

  /** A call of `tool` with these arguments that really reached the tool. */
  ghost predicate Ran(e: Event, tool: Tool, arguments: string) {
    e.tool == tool && e.arguments == Some(arguments) && !e.guarded && Permitted(e)
  }

  ghost predicate ReachedTool(events: seq<Event>, tool: Tool, arguments: string) {
    exists e | e in events :: Ran(e, tool, arguments)
  }

  /** And the tool answered it: an exception leaves no trace that the guard would see. */
  ghost predicate Retrieved(events: seq<Event>, tool: Tool, arguments: string) {
    exists e | e in events :: Ran(e, tool, arguments) && e.returned
  }

  /** The guard answers only for completed retrievals. */
  ghost predicate GuardSound(events: seq<Event>, tool: Tool, arguments: string) {
    IsExactDuplicateRetrieval(events, tool, arguments) ==> Retrieved(events, tool, arguments)
  }

  /** A history that `CallTool` can leave behind with the guard on, whether calls are masked or not. */
  ghost predicate LiveHistory(events: seq<Event>, tools: set<Tool>, masking: bool) {
    forall i | 0 <= i < |events| :: LiveEvent(events[..i], events[i], tools, masking)
  }

  ghost predicate LiveEvent(past: seq<Event>, e: Event, tools: set<Tool>, masking: bool) {
    exists arguments: Option<string>, reply: Reply ::
      && (reply.Returned? ==> !reply.observation.actionMasked)
      && e == EventFor(past, Active(past, tools, masking), masking, true, e.tool, arguments, reply)
  }

  lemma LivePrefix(events: seq<Event>, n: nat, tools: set<Tool>, masking: bool)
    requires n <= |events| && LiveHistory(events, tools, masking)
    ensures LiveHistory(events[..n], tools, masking)
  {
    forall i | 0 <= i < n
      ensures LiveEvent(events[..n][..i], events[..n][i], tools, masking)
    {
      assert events[..n][..i] == events[..i];
    }
  }

  lemma LiveExtends(events: seq<Event>, arguments: Option<string>, reply: Reply, tool: Tool, tools: set<Tool>, masking: bool)
    returns (all: seq<Event>)
    requires LiveHistory(events, tools, masking)
    requires reply.Returned? ==> !reply.observation.actionMasked
    ensures all == events +
            [EventFor(events, Active(events, tools, masking), masking, true, tool, arguments, reply)]
    ensures LiveHistory(all, tools, masking)
    ensures Track(Log(all)) ==
            Advance(Track(Log(events)), all[|events|].tool, all[|events|].observation)
  {
    var e := EventFor(events, Active(events, tools, masking), masking, true, tool, arguments, reply);
    all := events + [e];
    assert all[..|events|] == events;
    assert LiveEvent(events, e, tools, masking);
    forall i | 0 <= i < |all|
      ensures LiveEvent(all[..i], all[i], tools, masking)
    {
      assert all[..i] == if i == |events| then events else events[..i];
    }
    LogSnoc(all);
  }

  /** A logged call with arguments, when no earlier call answers for it, really ran. */
  lemma UnansweredCallRan(past: seq<Event>, last: Event, tools: set<Tool>, masking: bool)
    requires LiveEvent(past, last, tools, masking) && last.tool in RETRIEVAL_TOOLS && last.arguments.Some?
    requires !IsExactDuplicateRetrieval(past, last.tool, last.arguments.value)
    ensures !last.guarded && Permitted(last)
  {
  }

  /** A logged call with arguments that an earlier call answers for did not run. */
  lemma AnsweredCallIsGuarded(past: seq<Event>, last: Event, tools: set<Tool>, masking: bool)
    requires LiveEvent(past, last, tools, masking) && last.tool in RETRIEVAL_TOOLS && last.arguments.Some?
    requires IsExactDuplicateRetrieval(past, last.tool, last.arguments.value)
    ensures last.guarded
  {
  }

  lemma LiveEventsSucceed(past: seq<Event>, last: Event, tools: set<Tool>, masking: bool)
    requires LiveEvent(past, last, tools, masking)
    ensures !last.error
  {
  }

  /** The first call that the guard takes for this retrieval. */
  function FirstMatch(events: seq<Event>, tool: Tool, arguments: string): (r: Option<Event>)
    ensures r.Some? ==> r.value in events && MatchesRetrieval(r.value, tool, arguments)
    ensures r.None? ==> forall e | e in events :: !MatchesRetrieval(e, tool, arguments)
  {
    if events == [] then None else
    var k := |events| - 1;
    assert events == events[..k] + [events[k]];
    var before := FirstMatch(events[..k], tool, arguments);
    if before.Some? then before else if MatchesRetrieval(events[k], tool, arguments) then Some(events[k]) else None
  }

  lemma RetrievalsSnoc(past: seq<Event>, last: Event, tool: Tool, arguments: string)
    requires tool in RETRIEVAL_TOOLS
    ensures IsExactDuplicateRetrieval(past + [last], tool, arguments) <==>
            IsExactDuplicateRetrieval(past, tool, arguments) || MatchesRetrieval(last, tool, arguments)
    ensures ReachedTool(past + [last], tool, arguments) <==>
            ReachedTool(past, tool, arguments) || Ran(last, tool, arguments)
    ensures Retrieved(past + [last], tool, arguments) <==>
            Retrieved(past, tool, arguments) || (Ran(last, tool, arguments) && last.returned)
  {
    var all := past + [last];
    assert last in all && forall e | e in past :: e in all;
    assert forall e | e in all :: e in past || e == last;
  }

  /** What was reached, and what was really retrieved, read off the first matching call. */
  lemma {:induction false} RetrievedExactly(events: seq<Event>, tool: Tool, arguments: string, tools: set<Tool>, masking: bool)
    requires LiveHistory(events, tools, masking) && tool in RETRIEVAL_TOOLS
    ensures var first := FirstMatch(events, tool, arguments);
            && (ReachedTool(events, tool, arguments) <==> first.Some? && first.value.arguments.Some?)
            && (Retrieved(events, tool, arguments) <==> first.Some? && first.value.arguments.Some? && first.value.returned)
  {
    if events != [] {
      var k := |events| - 1;
      var past, last := events[..k], events[k];
      assert events == past + [last];
      LivePrefix(events, k, tools, masking);
      RetrievedExactly(past, tool, arguments, tools, masking);
      RetrievalsSnoc(past, last, tool, arguments);
      assert LiveEvent(past, last, tools, masking);
      LiveEventsSucceed(past, last, tools, masking);
      if last.tool == tool && last.arguments == Some(arguments) {
        if FirstMatch(past, tool, arguments).Some? {
          AnsweredCallIsGuarded(past, last, tools, masking);
        } else {
          UnansweredCallRan(past, last, tools, masking);
        }
      }
    }
  }

  /**
   On every history that the loop can leave behind, masked or not, for each of the four retrieval tools
   and any arguments: the guard answers only for a completed retrieval if and only if the first call it
   takes for that retrieval was logged with its arguments and its tool returned. A masked or invalid
   call is logged without arguments and reads as a call with an empty object; a call that raised is
   logged without an error.
   */
  lemma GuardSoundExactly(events: seq<Event>, tool: Tool, arguments: string, tools: set<Tool>, masking: bool)
    requires LiveHistory(events, tools, masking) && tool in RETRIEVAL_TOOLS
    ensures var first := FirstMatch(events, tool, arguments);
            GuardSound(events, tool, arguments) <==> (first.Some? ==> first.value.arguments.Some? && first.value.returned)
  {
    RetrievedExactly(events, tool, arguments, tools, masking);
  }

  /** With any arguments but the empty object the guard answers only for a call that reached the tool. */
  lemma GuardIsSound(events: seq<Event>, tool: Tool, arguments: string, tools: set<Tool>, masking: bool)
    requires LiveHistory(events, tools, masking) && arguments != EMPTY_ARGUMENTS
    ensures IsExactDuplicateRetrieval(events, tool, arguments) ==> ReachedTool(events, tool, arguments)
  {
    if tool in RETRIEVAL_TOOLS { RetrievedExactly(events, tool, arguments, tools, masking); }
  }

  /**
   For an empty argument object it may answer a retrieval that never happened.  A masked call
   is recorded without arguments, and the guard later reads that as a call with none: here
   the diff that recovery demands is permitted, answered by the guard and counted as done,
   although no diff was ever retrieved.
   */
  lemma GuardAnswersUnseenDiff(tools: set<Tool>) returns (events: seq<Event>)
    requires {ExecuteSql, GetSchemaVersion, InspectSchemaDiff} <= tools
    ensures LiveHistory(events, tools, true) && |events| == 4
    ensures events[3] == Event(InspectSchemaDiff, Some(EMPTY_ARGUMENTS), false, false, true, false, BLANK)
    ensures Track(Log(events[..3])).phase == NeedDiff && Track(Log(events)).phase == Idle
    ensures !ReachedTool(events, InspectSchemaDiff, EMPTY_ARGUMENTS)
  {
    var none := Some(EMPTY_ARGUMENTS);
    var past := MaskedDiffThenVersion(tools);
    assert past[1] in past && MatchesRetrieval(past[1], InspectSchemaDiff, EMPTY_ARGUMENTS);
    GuardedDiff(past, tools);
    events := LiveExtends(past, none, Raised, InspectSchemaDiff, tools, true);
    assert events[..3] == past;
    assert events[3] == Event(InspectSchemaDiff, none, false, false, true, false, BLANK);
    NeverReached(events);
  }

  lemma GuardedDiff(past: seq<Event>, tools: set<Tool>)
    requires InspectSchemaDiff in tools && Track(Log(past)).phase == NeedDiff
    requires IsExactDuplicateRetrieval(past, InspectSchemaDiff, EMPTY_ARGUMENTS)
    ensures EventFor(past, Active(past, tools, true), true, true, InspectSchemaDiff, Some(EMPTY_ARGUMENTS), Raised)
            == Event(InspectSchemaDiff, Some(EMPTY_ARGUMENTS), false, false, true, false, BLANK)
  {
    DemandedIsActive(past, tools, InspectSchemaDiff);
  }

  lemma DemandedIsActive(past: seq<Event>, tools: set<Tool>, tool: Tool)
    requires RequiredBy(Track(Log(past)).phase) == Some(tool) && tool in tools
    ensures Active(past, tools, true) == {tool}
  {
  }

  lemma NeverReached(events: seq<Event>)
    requires |events| == 4 && events[0].tool == ExecuteSql && events[2].tool == GetSchemaVersion
    requires events[1].arguments == None && events[3].guarded
    ensures !ReachedTool(events, InspectSchemaDiff, EMPTY_ARGUMENTS)
  {
  }

  /** A failed execution, a masked diff, and the version that recovery demands. */
  lemma MaskedDiffThenVersion(tools: set<Tool>) returns (events: seq<Event>)
    requires {ExecuteSql, GetSchemaVersion, InspectSchemaDiff} <= tools
    ensures LiveHistory(events, tools, true) && |events| == 3
    ensures Track(Log(events)).phase == NeedDiff
    ensures events[0].tool == ExecuteSql && events[2].tool == GetSchemaVersion
    ensures events[1] == Event(InspectSchemaDiff, None, false, true, false, false, BLANK.(actionMasked := true))
  {
    var none := Some(EMPTY_ARGUMENTS);
    events := FailedExecution(tools);
    DemandedIsActive(events, tools, GetSchemaVersion);
    events := LiveExtends(events, none, Raised, InspectSchemaDiff, tools, true);
    DemandedIsActive(events, tools, GetSchemaVersion);
    events := LiveExtends(events, none, Raised, GetSchemaVersion, tools, true);
  }

  lemma FailedExecution(tools: set<Tool>) returns (events: seq<Event>)
    requires {ExecuteSql, GetSchemaVersion} <= tools
    ensures LiveHistory(events, tools, true) && |events| == 1 && events[0].tool == ExecuteSql
    ensures Track(Log(events)).phase == NeedVersion
  {
    assert Track(Log([])) == START;
    events := LiveExtends([], Some(EMPTY_ARGUMENTS), Returned(BLANK.(successFalse := true)), ExecuteSql, tools, true);
  }

  /**
   It also answers a retrieval that raised: the first diff reaches the tool and raises, an execution
   fails, and the diff that recovery then demands is answered by the guard and counted as done,
   although no diff was ever shown.
   */
  lemma GuardAnswersRaisedDiff(tools: set<Tool>) returns (events: seq<Event>)
    requires {ExecuteSql, GetSchemaVersion, InspectSchemaDiff} <= tools
    ensures LiveHistory(events, tools, true) && |events| == 4
    ensures FirstMatch(events, InspectSchemaDiff, EMPTY_ARGUMENTS) == Some(events[0]) && events[0].arguments.Some?
    ensures events[3] == Event(InspectSchemaDiff, Some(EMPTY_ARGUMENTS), false, false, true, false, BLANK)
    ensures Track(Log(events[..3])).phase == NeedDiff && Track(Log(events)).phase == Idle
    ensures !Retrieved(events, InspectSchemaDiff, EMPTY_ARGUMENTS)
  {
    var past := RaisedDiffThenVersion(tools);
    assert past[0] in past && MatchesRetrieval(past[0], InspectSchemaDiff, EMPTY_ARGUMENTS);
    GuardedDiff(past, tools);
    events := LiveExtends(past, Some(EMPTY_ARGUMENTS), Raised, InspectSchemaDiff, tools, true);
    assert events[..3] == past;
    FirstIsFirst(events, InspectSchemaDiff, EMPTY_ARGUMENTS);
    NeverReturned(events);
  }

  lemma NeverReturned(events: seq<Event>)
    requires |events| == 4 && events[1].tool == ExecuteSql && events[2].tool == GetSchemaVersion
    requires !events[0].returned && events[3].guarded
    ensures !Retrieved(events, InspectSchemaDiff, EMPTY_ARGUMENTS)
  {
  }

  lemma {:induction false} FirstIsFirst(events: seq<Event>, tool: Tool, arguments: string)
    requires events != [] && MatchesRetrieval(events[0], tool, arguments)
    ensures FirstMatch(events, tool, arguments) == Some(events[0])
  {
    if |events| > 1 {
      FirstIsFirst(events[..|events| - 1], tool, arguments);
    } else {
      assert events[..0] == [];
    }
  }

  /** A diff that raises, a failed execution, and the version that recovery demands. */
  lemma RaisedDiffThenVersion(tools: set<Tool>) returns (events: seq<Event>)
    requires {ExecuteSql, GetSchemaVersion, InspectSchemaDiff} <= tools
    ensures LiveHistory(events, tools, true) && |events| == 3
    ensures Track(Log(events)).phase == NeedDiff
    ensures events[0] == Event(InspectSchemaDiff, Some(EMPTY_ARGUMENTS), false, false, false, false, BLANK)
    ensures events[1].tool == ExecuteSql && events[2].tool == GetSchemaVersion
  {
    var none := Some(EMPTY_ARGUMENTS);
    var past := RaisedDiff(tools);
    assert ExecuteSql in Active(past, tools, true);
    events := LiveExtends(past, none, Returned(BLANK.(successFalse := true)), ExecuteSql, tools, true);
    assert events[0] == past[0] && events[1].tool == ExecuteSql;
    DemandedIsActive(events, tools, GetSchemaVersion);
    past := events;
    events := LiveExtends(past, none, Raised, GetSchemaVersion, tools, true);
    assert events[0] == past[0] && events[1] == past[1];
  }

  lemma RaisedDiff(tools: set<Tool>) returns (events: seq<Event>)
    requires InspectSchemaDiff in tools
    ensures LiveHistory(events, tools, true) && |events| == 1
    ensures events[0] == Event(InspectSchemaDiff, Some(EMPTY_ARGUMENTS), false, false, false, false, BLANK)
    ensures Track(Log(events)) == START.(called := {InspectSchemaDiff})
  {
    assert Track(Log([])) == START;
    assert InspectSchemaDiff in Active([], tools, true);
    events := LiveExtends([], Some(EMPTY_ARGUMENTS), Raised, InspectSchemaDiff, tools, true);
  }

  /** A demanded retrieval discharges its obligation whatever happens to it, duplicates included. */
  lemma DemandIsDischarged(past: seq<Event>, e: Event, tools: set<Tool>, masking: bool)
    requires LiveEvent(past, e, tools, masking)
    requires RequiredBy(Track(Log(past)).phase) == Some(e.tool) && e.tool in tools
    ensures Permitted(e)
    ensures Track(Log(past + [e])).phase ==
            if e.tool == GetSchemaVersion then NeedDiff else Idle
  {
    assert (past + [e])[..|past|] == past;
    LogSnoc(past + [e]);
  }
}
