/**
 The controller that submits for the agent: it replays a finished trajectory, and is proved equal to
 a machine that watches the events as they happen. The recorded audit is its twin.
 */
module SubmitController {
  import opened Prelude
  import opened Strings

  datatype Fingerprint = Fingerprint(rowCount: int, valueHash: string)

  /** One trajectory entry; `recorded` is the fingerprint that parses out of its observation. */
  datatype Event = Event(toolName: Option<string>, tool: string, failed: bool, sql: string,
                         executionSuccess: bool, success: bool, recorded: Option<Fingerprint>)

  /** What the controller asks of SQLite and of the SQL parser. */
  datatype World = World(parsesAsQuery: string -> bool, fingerprint: string -> Option<Fingerprint>, materializes: bool)

  /** The stored contract; `expected` is absent when it is missing or ill-typed. */
  datatype Contract = Contract(expected: Option<Fingerprint>, sourceExists: bool, hasDiff: bool)

  datatype Reason =
    | MissingContract | MissingSource | DiffNotInspected | NoSafeSuccess | MaterializationFailed
    | UnsafeCandidate | Validated | Mismatch

  datatype Decision = Decision(accepted: bool, reason: Reason, sql: string, eventIndex: int,
                               readOnly: bool, inspected: bool, succeeded: bool,
                               expected: Option<Fingerprint>, actual: Option<Fingerprint>)

  function Refuse(reason: Reason): Decision {
    Decision(false, reason, "", -1, false, false, false, None, None)
  }

  function Accept(sql: string, index: int, expected: Fingerprint, actual: Fingerprint): Decision {
    Decision(true, Validated, sql, index, true, true, true, Some(expected), Some(actual))
  }

  function Miss(expected: Fingerprint, succeeded: bool): Decision {
    Decision(false, Mismatch, "", -1, true, true, succeeded, Some(expected), None)
  }

  function ToolOf(e: Event): string {
    if e.toolName.Some? then e.toolName.value else e.tool
  }

  predicate IsReadOnly(w: World, sql: string) {
    Strip(sql) != "" && w.parsesAsQuery(sql)
  }

  // ---------------------------------------------------------------------------------
  // What the controller sees in an event

  /** A statement executed after stripping it; the position is that of its event. */
  datatype Candidate = Candidate(index: nat, sql: string, readOnly: bool, succeeded: bool)

  datatype Note = Diff | Statement(c: Candidate) | Nothing

  function View(w: World, index: nat, e: Event): Note {
    if ToolOf(e) == "inspect_schema_diff" && !e.failed then Diff
    else if ToolOf(e) == "execute_sql" && Strip(e.sql) != ""
    then Statement(Candidate(index, Strip(e.sql), IsReadOnly(w, Strip(e.sql)), e.executionSuccess || e.success))
    else Nothing
  }

  function Views(w: World, events: seq<Event>): (notes: seq<Note>)
    ensures |notes| == |events| && forall i | 0 <= i < |events| :: notes[i] == View(w, i, events[i])
  {
    seq(|events|, i requires 0 <= i < |events| => View(w, i, events[i]))
  }

  /** Position of the first audited diff. */
  function FirstDiff(notes: seq<Note>): (r: Option<nat>)
    ensures r.Some? ==> r.value < |notes| && notes[r.value].Diff?
    ensures r.Some? ==> forall i | 0 <= i < r.value :: !notes[i].Diff?
    ensures r.None? ==> forall i | 0 <= i < |notes| :: !notes[i].Diff?
  {
    if notes == [] then None else
    var k := |notes| - 1;
    var before := FirstDiff(notes[..k]);
    if before.Some? then before else if notes[k].Diff? then Some(k) else None
  }

  // ---------------------------------------------------------------------------------
  // The online machine

  datatype Watch =
    | NoDiff
    | Watching(candidates: bool, safeSuccess: bool)
    | Unsafe
    | Matched(sql: string, index: nat)

  function Judge(w: World, expected: Fingerprint, s: Watch, c: Candidate): Watch {
    if !s.Watching? then s
    else if !c.readOnly then Unsafe
    else if !c.succeeded then Watching(true, s.safeSuccess)
    else if w.fingerprint(c.sql) == Some(expected) then Matched(c.sql, c.index)
    else Watching(true, true)
  }

  /** One event. */
  function Advance(w: World, expected: Fingerprint, s: Watch, n: Note): Watch {
    match n
    case Diff => if s.NoDiff? then Watching(false, false) else s
    case Statement(c) => Judge(w, expected, s, c)
    case Nothing => s
  }

  function Run(w: World, expected: Fingerprint, notes: seq<Note>): Watch {
    if notes == [] then NoDiff else
    var k := |notes| - 1;
    Advance(w, expected, Run(w, expected, notes[..k]), notes[k])
  }

  /** What the machine has to say when the trajectory ends. */
  function Verdict(w: World, expected: Fingerprint, s: Watch): Decision {
    if s.NoDiff? then Refuse(DiffNotInspected)
    else if s.Watching? && !s.candidates then Refuse(NoSafeSuccess)
    else if !w.materializes then Refuse(MaterializationFailed)
    else if s.Unsafe? then Refuse(UnsafeCandidate)
    else if s.Matched? then Accept(s.sql, s.index, expected, expected)
    else if !s.safeSuccess then Refuse(NoSafeSuccess)
    else Miss(expected, true)
  }

  function Online(w: World, contract: Contract, events: seq<Event>): Decision {
    if contract.expected.None? || contract.expected.value.valueHash == "" then Refuse(MissingContract)
    else if !contract.sourceExists || !contract.hasDiff then Refuse(MissingSource)
    else Verdict(w, contract.expected.value, Run(w, contract.expected.value, Views(w, events)))
  }

  // ---------------------------------------------------------------------------------
  // The batch controller

  /** The statements among the first `n` events that ran after the first diff, in order. */
  function Candidates(first: nat, notes: seq<Note>, n: nat): seq<Candidate>
    requires n <= |notes|
  {
    if n <= first + 1 then [] else
    var before := Candidates(first, notes, n - 1);
    if notes[n - 1].Statement? then before + [notes[n - 1].c] else before
  }

  function JudgeAll(w: World, expected: Fingerprint, cs: seq<Candidate>): (s: Watch)
    ensures !s.NoDiff? && (s.Watching? ==> (s.candidates <==> cs != []))
  {
    if cs == [] then Watching(false, false) else
    var k := |cs| - 1;
    Judge(w, expected, JudgeAll(w, expected, cs[..k]), cs[k])
  }

  lemma {:induction false} JudgementIsFinal(w: World, expected: Fingerprint, cs: seq<Candidate>, k: nat)
    requires k <= |cs| && !JudgeAll(w, expected, cs[..k]).Watching?
    ensures JudgeAll(w, expected, cs) == JudgeAll(w, expected, cs[..k])
  {
    if k == |cs| {
      assert cs[..k] == cs;
    } else {
      var n := |cs| - 1;
      assert cs[..n][..k] == cs[..k];
      JudgementIsFinal(w, expected, cs[..n], k);
    }
  }

  lemma JudgeSnoc(w: World, expected: Fingerprint, cs: seq<Candidate>, c: Candidate)
    ensures JudgeAll(w, expected, cs + [c]) == Judge(w, expected, JudgeAll(w, expected, cs), c)
  {
    assert (cs + [c])[..|cs|] == cs;
  }

  lemma RunSnoc(w: World, expected: Fingerprint, notes: seq<Note>, k: nat)
    requires k < |notes|
    ensures Run(w, expected, notes[..k + 1]) == Advance(w, expected, Run(w, expected, notes[..k]), notes[k])
  {
    assert notes[..k + 1][..k] == notes[..k];
  }

  lemma FirstDiffSnoc(notes: seq<Note>, k: nat)
    requires k < |notes|
    ensures FirstDiff(notes[..k + 1]) ==
            if FirstDiff(notes[..k]).Some? then FirstDiff(notes[..k]) else if notes[k].Diff? then Some(k) else None
  {
    assert notes[..k + 1][..k] == notes[..k];
  }

  /** Watching the events is judging the collected candidates. */
  lemma {:induction false} RunJudgesCandidates(w: World, expected: Fingerprint, notes: seq<Note>, n: nat)
    requires n <= |notes|
    ensures Run(w, expected, notes[..n]) ==
            match FirstDiff(notes[..n])
            case None => NoDiff
            case Some(first) => JudgeAll(w, expected, Candidates(first, notes, n))
  {
    if n > 0 {
      var k := n - 1;
      RunJudgesCandidates(w, expected, notes, k);
      RunSnoc(w, expected, notes, k);
      FirstDiffSnoc(notes, k);
      var before := FirstDiff(notes[..k]);
      if before.Some? && notes[k].Statement? {
        JudgeSnoc(w, expected, Candidates(before.value, notes, k), notes[k].c);
      }
    }
  }

  /** `find_contract_validated_submission`. */
  method FindContractValidatedSubmission(w: World, contract: Contract, events: seq<Event>) returns (r: Decision)
    ensures r == Online(w, contract, events)
  {
    if contract.expected.None? || contract.expected.value.valueHash == "" {
      return Refuse(MissingContract);
    }
    if !contract.sourceExists || !contract.hasDiff {
      return Refuse(MissingSource);
    }
    var expected := contract.expected.value;
    ghost var notes := Views(w, events);
    RunJudgesCandidates(w, expected, notes, |events|);
    assert notes[..|events|] == notes;
    var diffIndices := DiffIndices(w, events, notes);
    if diffIndices == [] {
      return Refuse(DiffNotInspected);
    }
    var candidates := CollectCandidates(w, events, diffIndices[0], notes);
    if candidates == [] {
      return Refuse(NoSafeSuccess);
    }
    if !w.materializes {
      return Refuse(MaterializationFailed);
    }
    r := ReplayCandidates(w, expected, candidates);
  }

  method DiffIndices(w: World, events: seq<Event>, ghost notes: seq<Note>) returns (r: seq<nat>)
    requires Sees(w, events, notes)
    ensures FirstDiff(notes) == if r == [] then None else Some(r[0])
  {
    r := [];
    for index := 0 to |events|
      invariant FirstDiff(notes[..index]) == if r == [] then None else Some(r[0])
    {
      FirstDiffSnoc(notes, index);
      if ToolOf(events[index]) == "inspect_schema_diff" && !events[index].failed {
        r := r + [index];
      }
    }
    assert notes[..|events|] == notes;
  }

  /** The body of the collecting loop, after the position check. */
  method CandidateAt(w: World, index: nat, e: Event, ghost note: Note) returns (r: Option<Candidate>)
    requires note == View(w, index, e)
    ensures r == if note.Statement? then Some(note.c) else None
  {
    if ToolOf(e) != "execute_sql" {
      return None;
    }
    assert |"execute_sql"| != |"inspect_schema_diff"|;
    var sql := Strip(e.sql);
    var readOnly := IsReadOnly(w, sql);
    var succeeded := e.executionSuccess || e.success;
    if sql == "" {
      return None;
    }
    return Some(Candidate(index, sql, readOnly, succeeded));
  }

  /** `notes` is what the controller sees in `events`. */
  ghost predicate Sees(w: World, events: seq<Event>, notes: seq<Note>) {
    |notes| == |events| && forall i | 0 <= i < |events| :: notes[i] == View(w, i, events[i])
  }

  method CollectCandidates(w: World, events: seq<Event>, first: nat, ghost notes: seq<Note>) returns (r: seq<Candidate>)
    requires Sees(w, events, notes)
    ensures r == Candidates(first, notes, |events|)
  {
    r := [];
    for index := 0 to |events|
      invariant r == Candidates(first, notes, index)
    {
      if index <= first {
        continue;
      }
      var c := CandidateAt(w, index, events[index], notes[index]);
      if c.Some? {
        r := r + [c.value];
      }
    }
  }

  /** The candidates against the materialised database, with early returns. */
  method ReplayCandidates(w: World, expected: Fingerprint, candidates: seq<Candidate>) returns (r: Decision)
    requires candidates != [] && w.materializes
    ensures r == Verdict(w, expected, JudgeAll(w, expected, candidates))
  {
    var sawSafeSuccess := false;
    for n := 0 to |candidates|
      invariant JudgeAll(w, expected, candidates[..n]) == Watching(n > 0, sawSafeSuccess)
    {
      var c := candidates[n];
      assert candidates[..n + 1][..n] == candidates[..n];
      if !c.readOnly {
        JudgementIsFinal(w, expected, candidates, n + 1);
        return Refuse(UnsafeCandidate);
      }
      if !c.succeeded {
        continue;
      }
      sawSafeSuccess := true;
      var actual := w.fingerprint(c.sql);
      if actual.None? {
        continue;
      }
      if actual.value.rowCount == expected.rowCount && actual.value.valueHash == expected.valueHash {
        JudgementIsFinal(w, expected, candidates, n + 1);
        return Accept(c.sql, c.index, expected, actual.value);
      }
    }
    assert candidates[..|candidates|] == candidates;
    if !sawSafeSuccess {
      return Refuse(NoSafeSuccess);
    }
    return Miss(expected, true);
  }

  // ---------------------------------------------------------------------------------
  // Stability and the earliest acceptance

  lemma {:induction false} RunIsFinal(w: World, expected: Fingerprint, notes: seq<Note>, n: nat)
    requires n <= |notes|
    requires Run(w, expected, notes[..n]).Unsafe? || Run(w, expected, notes[..n]).Matched?
    ensures Run(w, expected, notes) == Run(w, expected, notes[..n])
  {
    if n == |notes| {
      assert notes[..n] == notes;
    } else {
      var k := |notes| - 1;
      assert notes[..k][..n] == notes[..n];
      RunIsFinal(w, expected, notes[..k], n);
    }
  }

  /** No later event changes an acceptance or an unsafe verdict. */
  lemma VerdictsAreStable(w: World, contract: Contract, events: seq<Event>, later: seq<Event>)
    requires Online(w, contract, events).accepted || Online(w, contract, events).reason.UnsafeCandidate?
    ensures Online(w, contract, events + later) == Online(w, contract, events)
  {
    var notes := Views(w, events + later);
    assert notes[..|events|] == Views(w, events);
    RunIsFinal(w, contract.expected.value, notes, |events|);
  }

  /** Event `i` executed, after the first diff, something that is not one query. */
  predicate Dangerous(notes: seq<Note>, i: nat)
    requires i < |notes|
  {
    var first := FirstDiff(notes);
    first.Some? && first.value < i && notes[i].Statement? && !notes[i].c.readOnly
  }

  /** Event `i` executed, after the first diff, one query that succeeded and has the expected fingerprint. */
  predicate Qualifies(w: World, expected: Fingerprint, notes: seq<Note>, i: nat)
    requires i < |notes|
  {
    var first := FirstDiff(notes);
    && first.Some? && first.value < i && notes[i].Statement?
    && notes[i].c.readOnly && notes[i].c.succeeded && w.fingerprint(notes[i].c.sql) == Some(expected)
  }

  /** Nothing before position `n` settles the matter. */
  ghost predicate OpenUntil(w: World, expected: Fingerprint, notes: seq<Note>, n: nat)
    requires n <= |notes|
  {
    forall j | 0 <= j < n :: !Dangerous(notes, j) && !Qualifies(w, expected, notes, j)
  }

  lemma FirstDiffOfPrefix(notes: seq<Note>, n: nat)
    requires n <= |notes|
    ensures var a, b := FirstDiff(notes[..n]), FirstDiff(notes);
            if b.Some? && b.value < n then a == b else a.None?
  {
    var a, b := FirstDiff(notes[..n]), FirstDiff(notes);
    if b.Some? && b.value < n {
      assert notes[..n][b.value].Diff?;
    }
  }

  lemma PrefixFact(w: World, expected: Fingerprint, notes: seq<Note>, n: nat, i: nat)
    requires i < n <= |notes|
    ensures Dangerous(notes[..n], i) == Dangerous(notes, i)
    ensures Qualifies(w, expected, notes[..n], i) == Qualifies(w, expected, notes, i)
  {
    FirstDiffOfPrefix(notes, n);
    assert notes[..n][i] == notes[i];
  }

  lemma PrefixOpen(w: World, expected: Fingerprint, notes: seq<Note>, n: nat, m: nat)
    requires m <= n <= |notes|
    ensures OpenUntil(w, expected, notes[..n], m) == OpenUntil(w, expected, notes, m)
  {
    forall i | 0 <= i < m
      ensures Dangerous(notes[..n], i) == Dangerous(notes, i)
      ensures Qualifies(w, expected, notes[..n], i) == Qualifies(w, expected, notes, i)
    {
      PrefixFact(w, expected, notes, n, i);
    }
  }

  /** The machine's state, read off the trajectory. */
  ghost predicate Fits(w: World, expected: Fingerprint, notes: seq<Note>, s: Watch) {
    match s
    case NoDiff => FirstDiff(notes).None?
    case Watching(_, _) => FirstDiff(notes).Some? && OpenUntil(w, expected, notes, |notes|)
    case Unsafe => exists i :: 0 <= i < |notes| && Dangerous(notes, i) && OpenUntil(w, expected, notes, i)
    case Matched(sql, i) =>
      && i < |notes| && Qualifies(w, expected, notes, i) && OpenUntil(w, expected, notes, i)
      && sql == notes[i].c.sql
  }

  /** Statements carry the positions of their events. */
  predicate Placed(notes: seq<Note>) {
    forall i | 0 <= i < |notes| :: notes[i].Statement? ==> notes[i].c.index == i
  }

  lemma FitsExtends(w: World, expected: Fingerprint, notes: seq<Note>, s: Watch)
    requires notes != [] && Fits(w, expected, notes[..|notes| - 1], s) && (s.Unsafe? || s.Matched?)
    ensures Fits(w, expected, notes, s)
  {
    var k := |notes| - 1;
    if s.Unsafe? {
      var i :| 0 <= i < k && Dangerous(notes[..k], i) && OpenUntil(w, expected, notes[..k], i);
      PrefixFact(w, expected, notes, k, i);
      PrefixOpen(w, expected, notes, k, i);
    } else {
      PrefixFact(w, expected, notes, k, s.index);
      PrefixOpen(w, expected, notes, k, s.index);
    }
  }

  lemma FitsAdvances(w: World, expected: Fingerprint, notes: seq<Note>, s: Watch)
    requires notes != [] && Placed(notes) && Fits(w, expected, notes[..|notes| - 1], s) && s.Watching?
    ensures Fits(w, expected, notes, Advance(w, expected, s, notes[|notes| - 1]))
  {
    var k := |notes| - 1;
    PrefixOpen(w, expected, notes, k, k);
    FirstDiffOfPrefix(notes, k);
    assert OpenUntil(w, expected, notes, k);
  }

  lemma {:induction false} RunFits(w: World, expected: Fingerprint, notes: seq<Note>)
    requires Placed(notes)
    ensures Fits(w, expected, notes, Run(w, expected, notes))
  {
    if notes != [] {
      var k := |notes| - 1;
      RunFits(w, expected, notes[..k]);
      var s := Run(w, expected, notes[..k]);
      if s.Watching? {
        FitsAdvances(w, expected, notes, s);
      } else if s.NoDiff? {
        FirstAdvances(w, expected, notes);
      } else {
        FitsExtends(w, expected, notes, s);
      }
    }
  }

  lemma FirstAdvances(w: World, expected: Fingerprint, notes: seq<Note>)
    requires notes != [] && FirstDiff(notes[..|notes| - 1]).None?
    ensures Fits(w, expected, notes, Advance(w, expected, NoDiff, notes[|notes| - 1]))
  {
    if notes[|notes| - 1].Diff? {
      assert FirstDiff(notes) == Some(|notes| - 1);
    }
  }

  /** At most one position settles the matter, and in one way. */
  lemma MatchedExactly(w: World, expected: Fingerprint, notes: seq<Note>, i: nat)
    requires Placed(notes) && i < |notes|
    ensures Run(w, expected, notes) == Matched(if notes[i].Statement? then notes[i].c.sql else "", i) <==>
            Qualifies(w, expected, notes, i) && OpenUntil(w, expected, notes, i)
  {
    RunFits(w, expected, notes);
    var s := Run(w, expected, notes);
    if Qualifies(w, expected, notes, i) && OpenUntil(w, expected, notes, i) {
      if s.Unsafe? {
        var j :| 0 <= j < |notes| && Dangerous(notes, j) && OpenUntil(w, expected, notes, j);
        var apart := j < i || i < j || i == j;
      } else if s.Matched? {
        assert s.index < i || i < s.index || s.index == i;
      }
    }
  }

  /**
   Acceptance, exactly: the controller accepts at position `i` if and only if the contract can be
   checked, event `i` qualifies, and nothing before it qualifies or is unsafe.
   */
  lemma AcceptsEarliest(w: World, contract: Contract, events: seq<Event>, i: nat)
    requires i < |events|
    ensures Online(w, contract, events).accepted && Online(w, contract, events).eventIndex == i <==>
            (&& contract.expected.Some? && contract.expected.value.valueHash != ""
             && contract.sourceExists && contract.hasDiff && w.materializes
             && Qualifies(w, contract.expected.value, Views(w, events), i)
             && OpenUntil(w, contract.expected.value, Views(w, events), i))
  {
    if contract.expected.Some? {
      var notes := Views(w, events);
      RunFits(w, contract.expected.value, notes);
      MatchedExactly(w, contract.expected.value, notes, i);
    }
  }

  /** What is submitted is a statement that the trajectory executed, and it has the expected fingerprint. */
  lemma SubmitsWhatRan(w: World, contract: Contract, events: seq<Event>)
    requires Online(w, contract, events).accepted
    ensures var r := Online(w, contract, events);
            && 0 <= r.eventIndex < |events| && r.sql == Strip(events[r.eventIndex].sql)
            && w.fingerprint(r.sql) == contract.expected == r.actual
  {
    RunFits(w, contract.expected.value, Views(w, events));
  }

  lemma UnsafeRunExactly(w: World, expected: Fingerprint, notes: seq<Note>)
    requires Placed(notes)
    ensures Run(w, expected, notes).Unsafe? <==>
            exists i :: 0 <= i < |notes| && Dangerous(notes, i) && OpenUntil(w, expected, notes, i)
  {
    RunFits(w, expected, notes);
    var s := Run(w, expected, notes);
    if s.Matched? {
      var j := s.index;
      forall i | 0 <= i < |notes| && Dangerous(notes, i)
        ensures !OpenUntil(w, expected, notes, i)
      {
        assert j < i;
      }
    }
  }

  /** The unsafe verdict, exactly. */
  lemma UnsafeExactly(w: World, contract: Contract, events: seq<Event>)
    requires contract.expected.Some? && contract.expected.value.valueHash != ""
    requires contract.sourceExists && contract.hasDiff && w.materializes
    ensures Online(w, contract, events).reason.UnsafeCandidate? <==>
            exists i :: 0 <= i < |events| && Dangerous(Views(w, events), i)
                        && OpenUntil(w, contract.expected.value, Views(w, events), i)
  {
    UnsafeRunExactly(w, contract.expected.value, Views(w, events));
  }

  // ---------------------------------------------------------------------------------
  // The recorded twin

  /** What the audit reads in an event: only `tool_name`, only `execution_success`, blank statements too. */
  datatype Entry =
    | AuditedDiff
    | Execution(index: nat, sql: string, readOnly: bool, succeeded: bool, recorded: Option<Fingerprint>)
    | Skipped

  function Read(w: World, index: nat, e: Event): Entry {
    if e.toolName == Some("inspect_schema_diff") && !e.failed then AuditedDiff
    else if e.toolName == Some("execute_sql")
    then Execution(index, Strip(e.sql), IsReadOnly(w, Strip(e.sql)), e.executionSuccess, e.recorded)
    else Skipped
  }

  function Reading(w: World, events: seq<Event>): (entries: seq<Entry>)
    ensures |entries| == |events| && forall i | 0 <= i < |events| :: entries[i] == Read(w, i, events[i])
  {
    seq(|events|, i requires 0 <= i < |events| => Read(w, i, events[i]))
  }

  function FirstAudited(entries: seq<Entry>): (r: Option<nat>)
    ensures r.Some? ==> r.value < |entries| && entries[r.value].AuditedDiff?
    ensures r.Some? ==> forall i | 0 <= i < r.value :: !entries[i].AuditedDiff?
    ensures r.None? ==> forall i | 0 <= i < |entries| :: !entries[i].AuditedDiff?
  {
    if entries == [] then None else
    var k := |entries| - 1;
    var before := FirstAudited(entries[..k]);
    if before.Some? then before else if entries[k].AuditedDiff? then Some(k) else None
  }

  function Conclude(expected: Fingerprint, e: Entry): Option<Decision> {
    if !e.Execution? then None
    else if !e.readOnly then Some(Refuse(UnsafeCandidate))
    else if e.succeeded && e.recorded == Some(expected) then Some(Accept(e.sql, e.index, expected, expected))
    else None
  }

  /** The first conclusive entry among those from `first + 1` up to `n`. */
  function FirstConclusion(expected: Fingerprint, first: nat, entries: seq<Entry>, n: nat): Option<Decision>
    requires n <= |entries|
  {
    if n <= first + 1 then None else
    var before := FirstConclusion(expected, first, entries, n - 1);
    if before.Some? then before else Conclude(expected, entries[n - 1])
  }

  function Recorded(w: World, expected: Fingerprint, events: seq<Event>): Decision {
    var entries := Reading(w, events);
    var first := FirstAudited(entries);
    if first.None? then Refuse(DiffNotInspected) else
    var r := FirstConclusion(expected, first.value, entries, |entries|);
    if r.Some? then r.value else Miss(expected, false)
  }

  lemma {:induction false} ConclusionIsFinal(expected: Fingerprint, first: nat, entries: seq<Entry>, n: nat)
    requires n <= |entries| && FirstConclusion(expected, first, entries, n).Some?
    ensures FirstConclusion(expected, first, entries, |entries|) == FirstConclusion(expected, first, entries, n)
    decreases |entries| - n
  {
    if n < |entries| { ConclusionIsFinal(expected, first, entries, n + 1); }
  }

  /** `recorded_contract_decision`; a missing contract raises. */
  method RecordedContractDecision(w: World, contract: Contract, events: seq<Event>) returns (r: Result<Decision, Reason>)
    ensures contract.expected.None? ==> r == Err(MissingContract)
    ensures contract.expected.Some? ==> r == Ok(Recorded(w, contract.expected.value, events))
  {
    if contract.expected.None? {
      return Err(MissingContract);
    }
    var expected := contract.expected.value;
    var entries := Reading(w, events);
    var firstDiff := FirstAudited(entries);
    if firstDiff.None? {
      return Ok(Refuse(DiffNotInspected));
    }
    var found := SearchEntries(expected, firstDiff.value, entries);
    return Ok(if found.Some? then found.value else Miss(expected, false));
  }

  /** The search with its early returns. */
  method SearchEntries(expected: Fingerprint, first: nat, entries: seq<Entry>) returns (r: Option<Decision>)
    ensures r == FirstConclusion(expected, first, entries, |entries|)
  {
    for index := 0 to |entries|
      invariant FirstConclusion(expected, first, entries, index).None?
    {
      var e := entries[index];
      if index <= first || !e.Execution? {
        continue;
      }
      if !e.readOnly {
        ConclusionIsFinal(expected, first, entries, index + 1);
        return Some(Refuse(UnsafeCandidate));
      }
      if !e.succeeded || e.recorded.None? {
        continue;
      }
      var actual := e.recorded.value;
      if actual.rowCount == expected.rowCount && actual.valueHash == expected.valueHash {
        ConclusionIsFinal(expected, first, entries, index + 1);
        return Some(Accept(e.sql, e.index, expected, actual));
      }
    }
    return None;
  }

  /** The recording speaks for the controller on this event. */
  predicate Faithful(w: World, e: Event) {
    ToolOf(e) == "execute_sql" ==>
      (&& e.toolName.Some? && Strip(e.sql) != "" && (e.success ==> e.executionSuccess)
       && (IsReadOnly(w, Strip(e.sql)) && e.executionSuccess ==> e.recorded == w.fingerprint(Strip(e.sql))))
  }

  /** Diffs are logged under `tool_name`, and every later execution is faithfully recorded. */
  predicate FaithfulLog(w: World, events: seq<Event>) {
    && (forall i | 0 <= i < |events| :: ToolOf(events[i]) == "inspect_schema_diff" ==> events[i].toolName.Some?)
    && var first := FirstDiff(Views(w, events));
       forall i | 0 <= i < |events| :: first.Some? && first.value < i ==> Faithful(w, events[i])
  }

  /** Note and entry say the same. */
  predicate Aligned(w: World, n: Note, e: Entry) {
    match n
    case Diff => e.AuditedDiff?
    case Nothing => e.Skipped?
    case Statement(c) =>
      && e.Execution? && e.index == c.index && e.sql == c.sql && e.readOnly == c.readOnly && e.succeeded == c.succeeded
      && (c.readOnly && c.succeeded ==> e.recorded == w.fingerprint(c.sql))
  }

  lemma FaithfulAligns(w: World, index: nat, e: Event)
    requires Faithful(w, e) && (ToolOf(e) == "inspect_schema_diff" ==> e.toolName.Some?)
    ensures Aligned(w, View(w, index, e), Read(w, index, e))
  {
    assert |"execute_sql"| != |"inspect_schema_diff"|;
  }

  lemma DiffsAlign(w: World, index: nat, e: Event)
    requires ToolOf(e) == "inspect_schema_diff" ==> e.toolName.Some?
    ensures View(w, index, e).Diff? <==> Read(w, index, e).AuditedDiff?
  {
  }

  /** What the audit says when the machine is in a given state. */
  function Audited(expected: Fingerprint, s: Watch): Option<Decision> {
    match s
    case Unsafe => Some(Refuse(UnsafeCandidate))
    case Matched(sql, index) => Some(Accept(sql, index, expected, expected))
    case _ => None
  }

  lemma AuditStep(w: World, expected: Fingerprint, s: Watch, n: Note, e: Entry)
    requires s.Watching? && Aligned(w, n, e)
    ensures Audited(expected, Advance(w, expected, s, n)) == Conclude(expected, e)
  {
  }

  lemma {:induction false} AuditFollows(w: World, expected: Fingerprint, notes: seq<Note>, entries: seq<Entry>,
                                        first: nat, n: nat)
    requires |notes| == |entries| && FirstDiff(notes) == Some(first) && n <= |notes|
    requires forall i | first < i < |notes| :: Aligned(w, notes[i], entries[i])
    ensures FirstConclusion(expected, first, entries, n) == Audited(expected, Run(w, expected, notes[..n]))
    ensures Run(w, expected, notes[..n]).NoDiff? <==> n <= first
  {
    if n > 0 {
      AuditFollows(w, expected, notes, entries, first, n - 1);
      RunSnoc(w, expected, notes, n - 1);
      var s := Run(w, expected, notes[..n - 1]);
      if s.Watching? && n - 1 > first {
        AuditStep(w, expected, s, notes[n - 1], entries[n - 1]);
      } else if s.NoDiff? {
        BeforeFirst(w, expected, notes, first, n - 1);
      }
    }
  }

  lemma BeforeFirst(w: World, expected: Fingerprint, notes: seq<Note>, first: nat, k: nat)
    requires FirstDiff(notes) == Some(first) && k <= first
    ensures Advance(w, expected, NoDiff, notes[k]) == if k == first then Watching(false, false) else NoDiff
  {
  }

  /** Both find the same first diff. */
  lemma SameFirst(w: World, events: seq<Event>)
    requires forall i | 0 <= i < |events| :: ToolOf(events[i]) == "inspect_schema_diff" ==> events[i].toolName.Some?
    ensures FirstAudited(Reading(w, events)) == FirstDiff(Views(w, events))
  {
    var notes, entries := Views(w, events), Reading(w, events);
    forall i | 0 <= i < |events|
      ensures notes[i].Diff? <==> entries[i].AuditedDiff?
    {
      DiffsAlign(w, i, events[i]);
    }
    var a, b := FirstAudited(entries), FirstDiff(notes);
    if a.Some? { assert notes[a.value].Diff?; }
    if b.Some? { assert entries[b.value].AuditedDiff?; }
  }

  /**
   The audit of a faithful log agrees with the controller on acceptance, SQL and position, and on the
   reason too, except that it cannot tell the absence of a safe success from a mismatch.
   */
  lemma RecordedAgrees(w: World, contract: Contract, events: seq<Event>)
    requires contract.expected.Some? && contract.expected.value.valueHash != ""
    requires contract.sourceExists && contract.hasDiff && w.materializes && FaithfulLog(w, events)
    ensures var batch, audit := Online(w, contract, events), Recorded(w, contract.expected.value, events);
            && audit.accepted == batch.accepted && audit.sql == batch.sql && audit.eventIndex == batch.eventIndex
            && audit.reason == if batch.reason.NoSafeSuccess? then Mismatch else batch.reason
  {
    var notes, entries, expected := Views(w, events), Reading(w, events), contract.expected.value;
    SameFirst(w, events);
    assert notes[..|events|] == notes;
    var first := FirstDiff(notes);
    if first.Some? {
      forall i | first.value < i < |notes|
        ensures Aligned(w, notes[i], entries[i])
      {
        FaithfulAligns(w, i, events[i]);
      }
      AuditFollows(w, expected, notes, entries, first.value, |notes|);
    } else {
      RunJudgesCandidates(w, expected, notes, |notes|);
    }
  }

  // ---------------------------------------------------------------------------------
  // Blank statements

  /** An execution without a statement: the controller skips it, the audit takes it for an unsafe one. */
  predicate IsBlank(e: Entry) {
    e.Execution? && e.sql == "" && !e.readOnly
  }

  /** A log whose executions, the blank ones apart, are faithfully recorded. */
  predicate FaithfulButBlank(w: World, events: seq<Event>) {
    && (forall i | 0 <= i < |events| :: ToolOf(events[i]) == "inspect_schema_diff" ==> events[i].toolName.Some?)
    && var first := FirstDiff(Views(w, events));
       forall i | 0 <= i < |events| && Strip(events[i].sql) != "" ::
         first.Some? && first.value < i ==> Faithful(w, events[i])
  }

  /** Note and entry say the same, or the entry is a blank execution that the note does not show. */
  predicate NearlyAligned(w: World, n: Note, e: Entry) {
    Aligned(w, n, e) || (n.Nothing? && IsBlank(e))
  }

  lemma FaithfulNearlyAligns(w: World, index: nat, e: Event)
    requires Strip(e.sql) != "" ==> Faithful(w, e)
    requires ToolOf(e) == "inspect_schema_diff" ==> e.toolName.Some?
    ensures NearlyAligned(w, View(w, index, e), Read(w, index, e))
  {
    assert |"execute_sql"| != |"inspect_schema_diff"|;
    if Strip(e.sql) == "" { assert Strip("") == ""; }
  }

  /** A blank execution stands between the first diff and position `n`. */
  predicate BlankBefore(entries: seq<Entry>, first: nat, n: nat)
    requires n <= |entries|
  {
    exists j | first < j < n :: IsBlank(entries[j])
  }

  lemma BlankSnoc(entries: seq<Entry>, first: nat, n: nat)
    requires n < |entries|
    ensures BlankBefore(entries, first, n + 1) <==>
            BlankBefore(entries, first, n) || (first < n && IsBlank(entries[n]))
  {
  }

  /** What the audit has concluded when the machine is in a given state after `n` events. */
  predicate BlankVerdict(expected: Fingerprint, s: Watch, c: Option<Decision>, entries: seq<Entry>, first: nat, n: nat)
    requires n <= |entries|
  {
    match s
    case NoDiff => c == None && n <= first
    case Watching(_, _) => first < n && c == if BlankBefore(entries, first, n) then Some(Refuse(UnsafeCandidate)) else None
    case Unsafe => first < n && c == Some(Refuse(UnsafeCandidate))
    case Matched(sql, i) =>
      && first < n && i < n
      && c == Some(if BlankBefore(entries, first, i) then Refuse(UnsafeCandidate) else Accept(sql, i, expected, expected))
  }

  lemma BlankStep(w: World, expected: Fingerprint, s: Watch, c: Option<Decision>, note: Note, entries: seq<Entry>,
                  first: nat, n: nat)
    requires first < n < |entries| && BlankVerdict(expected, s, c, entries, first, n)
    requires NearlyAligned(w, note, entries[n]) && (note.Statement? ==> note.c.index == n)
    ensures BlankVerdict(expected, Advance(w, expected, s, note),
                         if c.Some? then c else Conclude(expected, entries[n]), entries, first, n + 1)
  {
    BlankSnoc(entries, first, n);
  }

  lemma {:induction false} AuditWithBlanks(w: World, expected: Fingerprint, notes: seq<Note>, entries: seq<Entry>,
                                           first: nat, n: nat)
    requires |notes| == |entries| && Placed(notes) && FirstDiff(notes) == Some(first) && n <= |notes|
    requires forall i | first < i < |notes| :: NearlyAligned(w, notes[i], entries[i])
    ensures BlankVerdict(expected, Run(w, expected, notes[..n]), FirstConclusion(expected, first, entries, n),
                         entries, first, n)
  {
    if n > 0 {
      AuditWithBlanks(w, expected, notes, entries, first, n - 1);
      RunSnoc(w, expected, notes, n - 1);
      if n - 1 > first {
        BlankStep(w, expected, Run(w, expected, notes[..n - 1]), FirstConclusion(expected, first, entries, n - 1),
                  notes[n - 1], entries, first, n - 1);
      } else {
        BeforeFirst(w, expected, notes, first, n - 1);
      }
    }
  }

  /** Acceptance, statement and position: what a caller acts on. */
  predicate SameOutcome(a: Decision, b: Decision) {
    a.accepted == b.accepted && a.sql == b.sql && a.eventIndex == b.eventIndex
  }

  /**
   On logs that are faithful apart from blank statements the audit and the controller agree on
   acceptance, statement and position if and only if no blank execution stands between the first
   diff and the event that the controller accepts.
   */
  lemma RecordedAgreesExactly(w: World, contract: Contract, events: seq<Event>)
    requires contract.expected.Some? && contract.expected.value.valueHash != ""
    requires contract.sourceExists && contract.hasDiff && w.materializes && FaithfulButBlank(w, events)
    ensures var batch, audit := Online(w, contract, events), Recorded(w, contract.expected.value, events);
            var first := FirstDiff(Views(w, events));
            && (batch.accepted ==> first.Some? && 0 <= batch.eventIndex < |events|)
            && (SameOutcome(batch, audit) <==>
                  !(batch.accepted && BlankBefore(Reading(w, events), first.value, batch.eventIndex)))
  {
    var notes, entries, expected := Views(w, events), Reading(w, events), contract.expected.value;
    SameFirst(w, events);
    RunFits(w, expected, notes);
    assert notes[..|events|] == notes;
    var first := FirstDiff(notes);
    if first.Some? {
      forall i | first.value < i < |notes|
        ensures NearlyAligned(w, notes[i], entries[i])
      {
        FaithfulNearlyAligns(w, i, events[i]);
      }
      AuditWithBlanks(w, expected, notes, entries, first.value, |notes|);
    } else {
      RunJudgesCandidates(w, expected, notes, |notes|);
    }
  }

  /** A diff, a blank execution and a good one. */
  function BlankThenGood(expected: Fingerprint): seq<Event> {
    [Event(Some("inspect_schema_diff"), "", false, "", false, false, None),
     Event(Some("execute_sql"), "", true, " ", false, false, None),
     Event(Some("execute_sql"), "", false, "q", true, false, Some(expected))]
  }

  lemma BlankThenGoodRead(w: World, expected: Fingerprint)
    requires w.parsesAsQuery("q")
    ensures var events := BlankThenGood(expected);
            && Views(w, events) == [Diff, Nothing, Statement(Candidate(2, "q", true, true))]
            && Reading(w, events) ==
                 [AuditedDiff, Execution(1, "", false, false, None), Execution(2, "q", true, true, Some(expected))]
  {
    var events := BlankThenGood(expected);
    assert |"execute_sql"| != |"inspect_schema_diff"|;
    assert Strip(" ") == "" && Strip("") == "";
    StripPlain("q");
    assert View(w, 0, events[0]) == Diff && View(w, 1, events[1]) == Nothing;
    assert Read(w, 1, events[1]) == Execution(1, "", false, false, None);
    var notes, entries := Views(w, events), Reading(w, events);
    assert notes == [Diff, Nothing, Statement(Candidate(2, "q", true, true))];
  }

  /** The two part ways: the controller accepts the good execution, the audit stops at the blank one. */
  lemma BlankSqlDiffers(w: World, expected: Fingerprint)
    requires w.parsesAsQuery("q") && w.fingerprint("q") == Some(expected) && w.materializes && expected.valueHash != ""
    ensures var events := BlankThenGood(expected);
            var batch := Online(w, Contract(Some(expected), true, true), events);
            && batch.accepted && batch.sql == "q" && batch.eventIndex == 2
            && Recorded(w, expected, events) == Refuse(UnsafeCandidate)
  {
    var events := BlankThenGood(expected);
    var notes, entries := Views(w, events), Reading(w, events);
    BlankThenGoodRead(w, expected);
    assert notes[..0] == [] && notes[..3] == notes;
    RunSnoc(w, expected, notes, 0);
    RunSnoc(w, expected, notes, 1);
    RunSnoc(w, expected, notes, 2);
    assert FirstAudited(entries) == Some(0);
    assert FirstConclusion(expected, 0, entries, 1) == None;
    assert FirstConclusion(expected, 0, entries, 2) == Some(Refuse(UnsafeCandidate));
  }
}
