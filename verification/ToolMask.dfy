/** The two tool selectors, proved to read nothing but the tracker. */
module ToolMask {
  import opened Prelude
  import opened StatePolicy
  import opened RecoveryScan
  import opened MaskMeaning

  function Enumerate(log: seq<Entry>): seq<Completed> {
    seq(|log|, i requires 0 <= i < |log| => Completed(i, log[i].tool, log[i].observation))
  }

  function Unmasked(events: seq<Event>): seq<Entry> {
    if events == [] then [] else
    var k := |events| - 1;
    Unmasked(events[..k]) + if WasMasked(events[k]) then [] else [Entry(events[k].tool, events[k].observation)]
  }

  function CalledOneShot(es: seq<Completed>): set<Tool> {
    set e | e in es && e.tool in ONE_SHOT_TOOLS && !e.observation.actionMasked :: e.tool
  }

  /** Position of the newest valid clarification, or -1. */
  function LastAsk(es: seq<Completed>): int {
    if es == [] then -1 else
    var k := |es| - 1;
    if es[k].tool == AskUser && !es[k].observation.actionMasked then es[k].index else LastAsk(es[..k])
  }

  predicate FollowedUp(es: seq<Completed>, ask: int) {
    exists e | e in es ::
      e.index > ask && e.tool in POST_CLARIFICATION_TOOLS && !e.observation.actionMasked
  }

  // ---------------------------------------------------------------------------------
  // What the scans compute

  predicate NonNegative(es: seq<Completed>) {
    forall i | 0 <= i < |es| :: es[i].index >= 0
  }

  lemma {:induction false} CalledIsTracked(es: seq<Completed>)
    ensures CalledOneShot(es) == Track(EntriesOf(es)).called
  {
    if es != [] {
      var k := |es| - 1;
      CalledIsTracked(es[..k]);
      TrackLast(es);
      assert es == es[..k] + [es[k]];
      assert CalledOneShot(es) == CalledOneShot(es[..k]) + CalledOneShot([es[k]]);
    }
  }

  lemma {:induction false} ValidatedIsTracked(es: seq<Completed>)
    ensures HasValidatedExecution(es) == Track(EntriesOf(es)).validated
  {
    if es != [] {
      ValidatedIsTracked(es[..|es| - 1]);
      TrackLast(es);
    }
  }

  lemma {:induction false} LastAskBelow(es: seq<Completed>, bound: int)
    requires Below(es, bound) && bound >= 0
    ensures LastAsk(es) < bound
  {
    if es != [] { LastAskBelow(es[..|es| - 1], bound); }
  }

  lemma FollowedStep(past: seq<Completed>, e: Completed, ask: int)
    requires ask < e.index
    ensures FollowedUp(past + [e], ask) ==
            (FollowedUp(past, ask) || (e.tool in POST_CLARIFICATION_TOOLS && !e.observation.actionMasked))
  {
    assert e in past + [e];
    if FollowedUp(past, ask) {
      var x :| x in past && x.index > ask && x.tool in POST_CLARIFICATION_TOOLS && !x.observation.actionMasked;
      assert x in past + [e];
    }
  }

  lemma {:induction false} AwaitingIsTracked(es: seq<Completed>)
    requires Increasing(es) && NonNegative(es)
    ensures (LastAsk(es) >= 0 && !FollowedUp(es, LastAsk(es))) == Track(EntriesOf(es)).awaiting
  {
    if es != [] {
      var k := |es| - 1;
      var past, e := es[..k], es[k];
      AwaitingIsTracked(past);
      TrackLast(es);
      assert es == past + [e];
      assert Below(past, e.index);
      if e.tool == AskUser && !e.observation.actionMasked {
        assert !FollowedUp(es, e.index);
      } else {
        LastAskBelow(past, e.index);
        FollowedStep(past, e, LastAsk(past));
      }
    }
  }

  lemma {:induction false} SchemaIsTracked(log: seq<Entry>)
    requires forall i | 0 <= i < |log| :: !log[i].observation.actionMasked
    ensures (exists e | e in log :: e.tool == GetSchema && e.observation.hasSchema) == Track(log).schemaSeen
  {
    if log != [] {
      var k := |log| - 1;
      SchemaIsTracked(log[..k]);
      assert log == log[..k] + [log[k]];
    }
  }

  /** The log with every call masked on which either flag says so. */
  function JudgedLog(events: seq<Event>): (log: seq<Entry>)
    ensures |log| == |events| && forall i | 0 <= i < |events| :: log[i].tool == events[i].tool
    ensures forall i | 0 <= i < |events| ::
      log[i].observation.actionMasked <==> events[i].metricsMasked || events[i].observation.actionMasked
  {
    seq(|events|, i requires 0 <= i < |events| =>
      Entry(events[i].tool, events[i].observation.(actionMasked := WasMasked(events[i]))))
  }

  lemma JudgedSnoc(events: seq<Event>)
    requires events != []
    ensures var k := |events| - 1;
            var o := events[k].observation.(actionMasked := WasMasked(events[k]));
            Track(JudgedLog(events)) == Advance(Track(JudgedLog(events[..k])), events[k].tool, o)
  {
    assert JudgedLog(events)[..|events| - 1] == JudgedLog(events[..|events| - 1]);
  }

  lemma TrackSnoc(log: seq<Entry>, e: Entry)
    ensures Track(log + [e]) == Advance(Track(log), e.tool, e.observation)
  {
    assert (log + [e])[..|log|] == log;
  }

  lemma {:induction false} UnmaskedTrack(events: seq<Event>)
    ensures Track(Unmasked(events)) == Track(JudgedLog(events))
  {
    if events == [] {
      assert JudgedLog(events) == [];
    } else {
      var k := |events| - 1;
      UnmaskedTrack(events[..k]);
      JudgedSnoc(events);
      if WasMasked(events[k]) {
        assert Unmasked(events) == Unmasked(events[..k]);
      } else {
        TrackSnoc(Unmasked(events[..k]), Entry(events[k].tool, events[k].observation));
        assert events[k].observation.(actionMasked := false) == events[k].observation;
      }
    }
  }

  lemma {:induction false} UnmaskedCalls(events: seq<Event>)
    ensures forall i | 0 <= i < |Unmasked(events)| :: !Unmasked(events)[i].observation.actionMasked
  {
    if events != [] { UnmaskedCalls(events[..|events| - 1]); }
  }

  /** The execution-only mask, as the program computes it. */
  lemma ExecutionOnlyAllowed(t: Tracker, tools: set<Tool>, mode: Mode)
    requires mode.executionOnly && t.called <= ONE_SHOT_TOOLS
    ensures Allowed(t, tools, mode) ==
            if !t.schemaSeen && GetSchema in tools then {GetSchema}
            else if t.validated then (if SubmitSolution in tools - t.called then {SubmitSolution} else {})
            else tools - t.called - {SubmitSolution}
  {
    assert SubmitSolution !in ONE_SHOT_TOOLS;
  }

  lemma EnumerateFacts(log: seq<Entry>)
    ensures EntriesOf(Enumerate(log)) == log
    ensures Increasing(Enumerate(log)) && NonNegative(Enumerate(log))
  {
  }

  lemma ClarifyStaysInside(available: set<Tool>, knowledgeFirst: bool)
    ensures available * PostClarificationTools(available, knowledgeFirst) ==
            PostClarificationTools(available, knowledgeFirst)
  {
  }

  /** The enumerated events as the recovery scan sees them: masked when the observation says so. */
  function Observed(events: seq<Event>): seq<Completed> {
    Enumerate(Log(events))
  }

  /** The same events as the one-shot and clarification scans see them: masked on either flag. */
  function Judged(events: seq<Event>): seq<Completed> {
    Enumerate(JudgedLog(events))
  }

  /** Every scan, in one place. */
  lemma ScansAreTracked(log: seq<Entry>)
    ensures var es, t := Enumerate(log), Track(log);
            && CalledOneShot(es) == t.called <= ONE_SHOT_TOOLS
            && RequiredRecoveryAction(es) == RequiredBy(t.phase)
            && HasValidatedExecution(es) == t.validated
            && (LastAsk(es) >= 0 && !FollowedUp(es, LastAsk(es))) == t.awaiting
  {
    EnumerateFacts(log);
    var es := Enumerate(log);
    CalledIsTracked(es);
    CalledAreOneShot(log);
    ScanIsAutomaton(es);
    ValidatedIsTracked(es);
    AwaitingIsTracked(es);
  }

  /**
   What the mask reads in a history. The recovery and validation scans look at the observation's flag
   alone, the others at both flags; on a coherent history there is no difference.
   */
  function MaskTracker(events: seq<Event>, mode: Mode): Tracker {
    var judged := Track(JudgedLog(events));
    if mode.executionOnly then judged
    else Track(Log(events)).(called := judged.called, awaiting := judged.awaiting)
  }

  lemma CoherentTracker(events: seq<Event>, mode: Mode)
    requires Coherent(events)
    ensures MaskTracker(events, mode) == Track(Log(events))
  {
    forall i | 0 <= i < |events|
      ensures JudgedLog(events)[i] == Log(events)[i]
    {
      assert events[i] in events;
    }
    assert JudgedLog(events) == Log(events);
  }

  /** The branch for execution-only mode. */
  method SelectExecutionOnly(events: seq<Event>, tools: set<Tool>, mode: Mode) returns (selected: set<Tool>)
    requires mode.executionOnly
    ensures selected == Allowed(MaskTracker(events, mode), tools, mode)
  {
    var available := tools;
    var completed := Unmasked(events);
    UnmaskedTrack(events);
    UnmaskedCalls(events);
    ScansAreTracked(completed);
    SchemaIsTracked(completed);
    ExecutionOnlyAllowed(Track(completed), tools, mode);
    var schemaRetrieved := exists e | e in completed :: e.tool == GetSchema && e.observation.hasSchema;
    if !schemaRetrieved && GetSchema in available {
      return {GetSchema};
    }
    available := available - CalledOneShot(Enumerate(completed));
    if HasValidatedExecution(Enumerate(completed)) {
      return if SubmitSolution in available then {SubmitSolution} else {};
    }
    return available - {SubmitSolution};
  }

  /** The branch for every other mode. */
  method SelectLive(events: seq<Event>, tools: set<Tool>, mode: Mode) returns (selected: set<Tool>)
    requires !mode.executionOnly
    ensures selected == Allowed(MaskTracker(events, mode), tools, mode)
  {
    var available := tools;
    var observed, judged := Observed(events), Judged(events);
    ScansAreTracked(Log(events));
    ScansAreTracked(JudgedLog(events));
    available := available - CalledOneShot(judged);
    var required := RequiredRecoveryAction(observed);
    if required.Some? && required.value in tools {
      return {required.value};
    }
    if HasValidatedExecution(observed) && SubmitSolution in available {
      return {SubmitSolution};
    }
    var ask := LastAsk(judged);
    if ask >= 0 && !FollowedUp(judged, ask) {
      ClarifyStaysInside(available, mode.knowledgeFirst);
      available := available * PostClarificationTools(available, mode.knowledgeFirst);
    }
    return available;
  }

  /**
   `select_dynamic_tool_names`: for every history whatever, the selection is the mask that its calls mean, and
   that is read off the tracker; when the history is coherent, off the constant-memory tracker of its log.
   */
  method SelectDynamicToolNames(events: seq<Event>, tools: set<Tool>, mode: Mode)
    returns (selected: set<Tool>)
    ensures IsMask(selected, Log(events), JudgedLog(events), tools, mode)
    ensures selected == Allowed(MaskTracker(events, mode), tools, mode)
    ensures Coherent(events) ==> selected == Allowed(Track(Log(events)), tools, mode)
  {
    AllowedMeans(Log(events), JudgedLog(events), tools, mode);
    if mode.executionOnly {
      selected := SelectExecutionOnly(events, tools, mode);
    } else {
      selected := SelectLive(events, tools, mode);
    }
    if Coherent(events) {
      CoherentTracker(events, mode);
    }
  }

  lemma {:induction false} CalledAreOneShot(log: seq<Entry>)
    ensures Track(log).called <= ONE_SHOT_TOOLS
  {
    if log != [] { CalledAreOneShot(log[..|log| - 1]); }
  }
}
