/**
 The decisions of the submission controller and of its recorded twin, one case after the other, said on the
 events of the trajectory: which tool ran, whether it failed, and whether its statement parses as one query.
 */
module SubmissionTable {
  import opened Prelude
  import opened Strings
  import opened SubmitController

  /** The tool of an event: `tool_name`, or else `tool`. */
  predicate Named(e: Event, name: string) {
    e.toolName == Some(name) || (e.toolName.None? && e.tool == name)
  }

  predicate DiffAt(events: seq<Event>, i: int) {
    0 <= i < |events| && Named(events[i], "inspect_schema_diff") && !events[i].failed
  }

  ghost predicate DiffBefore(events: seq<Event>, n: int) {
    exists d | d < n :: DiffAt(events, d)
  }

  /** A statement that is not blank was executed after a diff. */
  ghost predicate RanAt(events: seq<Event>, i: int) {
    && 0 <= i < |events| && Named(events[i], "execute_sql") && Strip(events[i].sql) != ""
    && DiffBefore(events, i)
  }

  /** It is no query. */
  ghost predicate UnsafeAt(w: World, events: seq<Event>, i: int) {
    RanAt(events, i) && !w.parsesAsQuery(Strip(events[i].sql))
  }

  /** It is a query, and the sandbox ran it. */
  ghost predicate SafeAt(w: World, events: seq<Event>, i: int) {
    && RanAt(events, i) && w.parsesAsQuery(Strip(events[i].sql))
    && (events[i].executionSuccess || events[i].success)
  }

  /** And it returns what the contract expects. */
  ghost predicate GoodAt(w: World, expected: Fingerprint, events: seq<Event>, i: int) {
    SafeAt(w, events, i) && w.fingerprint(Strip(events[i].sql)) == Some(expected)
  }

  ghost predicate Quiet(w: World, expected: Fingerprint, events: seq<Event>, n: int) {
    forall j | j < n :: !UnsafeAt(w, events, j) && !GoodAt(w, expected, events, j)
  }

  /** What the state of the machine says about the first `n` events. */
  ghost predicate Says(w: World, expected: Fingerprint, events: seq<Event>, n: int, s: Watch) {
    match s
    case NoDiff => !DiffBefore(events, n) && Quiet(w, expected, events, n)
    case Watching(candidates, safeSuccess) =>
      && DiffBefore(events, n) && Quiet(w, expected, events, n)
      && (candidates <==> exists j | j < n :: RanAt(events, j))
      && (safeSuccess <==> exists j | j < n :: SafeAt(w, events, j))
    case Unsafe => exists i | i < n :: UnsafeAt(w, events, i) && Quiet(w, expected, events, i)
    case Matched(sql, i) =>
      i < n && GoodAt(w, expected, events, i) && Quiet(w, expected, events, i) && sql == Strip(events[i].sql)
  }

  /** The new event, as the machine sees it. */
  lemma ViewMeans(w: World, events: seq<Event>, n: nat)
    requires n < |events|
    ensures var note := View(w, n, events[n]);
            && (note.Diff? <==> DiffAt(events, n))
            && (DiffBefore(events, n) ==> (note.Statement? <==> RanAt(events, n)))
            && (note.Statement? ==>
                  && note.c.sql == Strip(events[n].sql) && note.c.index == n
                  && (note.c.readOnly <==> w.parsesAsQuery(Strip(events[n].sql)))
                  && (note.c.succeeded <==> events[n].executionSuccess || events[n].success))
  {
    assert |"execute_sql"| != |"inspect_schema_diff"|;
  }

  lemma DiffNext(events: seq<Event>, n: nat)
    ensures DiffBefore(events, n + 1) <==> DiffBefore(events, n) || DiffAt(events, n)
  {
  }

  lemma DiffStays(events: seq<Event>, m: int, n: int)
    requires m <= n
    ensures DiffBefore(events, m) ==> DiffBefore(events, n)
  {
  }

  lemma QuietNext(w: World, expected: Fingerprint, events: seq<Event>, n: nat)
    ensures Quiet(w, expected, events, n + 1) <==>
            Quiet(w, expected, events, n) && !UnsafeAt(w, events, n) && !GoodAt(w, expected, events, n)
  {
  }

  lemma SaysBeforeDiff(w: World, expected: Fingerprint, events: seq<Event>, n: nat)
    requires n < |events| && Says(w, expected, events, n, NoDiff)
    ensures Says(w, expected, events, n + 1, Advance(w, expected, NoDiff, View(w, n, events[n])))
  {
    ViewMeans(w, events, n);
    DiffNext(events, n);
    QuietNext(w, expected, events, n);
    forall j | j < n + 1
      ensures !RanAt(events, j)
    {
      DiffStays(events, j, n);
    }
  }

  lemma RanNext(w: World, events: seq<Event>, n: nat)
    ensures (exists j | j < n + 1 :: RanAt(events, j)) <==> (exists j | j < n :: RanAt(events, j)) || RanAt(events, n)
    ensures (exists j | j < n + 1 :: SafeAt(w, events, j)) <==>
            (exists j | j < n :: SafeAt(w, events, j)) || SafeAt(w, events, n)
  {
  }

  lemma SaysWatching(w: World, expected: Fingerprint, events: seq<Event>, n: nat, s: Watch)
    requires n < |events| && s.Watching? && Says(w, expected, events, n, s)
    ensures Says(w, expected, events, n + 1, Advance(w, expected, s, View(w, n, events[n])))
  {
    ViewMeans(w, events, n);
    DiffNext(events, n);
    QuietNext(w, expected, events, n);
    RanNext(w, events, n);
  }

  lemma SaysSettled(w: World, expected: Fingerprint, events: seq<Event>, n: nat, s: Watch)
    requires (s.Unsafe? || s.Matched?) && Says(w, expected, events, n, s)
    ensures Says(w, expected, events, n + 1, s)
  {
  }

  lemma SaysNext(w: World, expected: Fingerprint, events: seq<Event>, n: nat, s: Watch)
    requires n < |events| && Says(w, expected, events, n, s)
    ensures Says(w, expected, events, n + 1, Advance(w, expected, s, View(w, n, events[n])))
  {
    match s
    case NoDiff => SaysBeforeDiff(w, expected, events, n);
    case Watching(_, _) => SaysWatching(w, expected, events, n, s);
    case _ => SaysSettled(w, expected, events, n, s);
  }

  lemma {:induction false} RunSays(w: World, expected: Fingerprint, events: seq<Event>, n: nat)
    requires n <= |events|
    ensures Says(w, expected, events, n, Run(w, expected, Views(w, events)[..n]))
  {
    if n == 0 {
      assert !DiffBefore(events, 0);
    } else {
      RunSays(w, expected, events, n - 1);
      RunSnoc(w, expected, Views(w, events), n - 1);
      SaysNext(w, expected, events, n - 1, Run(w, expected, Views(w, events)[..n - 1]));
    }
  }

  /** The contract is there, and so are the database and the diff. */
  predicate Checkable(c: Contract) {
    c.expected.Some? && c.expected.value.valueHash != "" && c.sourceExists && c.hasDiff
  }

  /** Two events do not settle the matter in two ways. */
  lemma NeverBoth(w: World, expected: Fingerprint, events: seq<Event>, i: int, j: int)
    ensures !(UnsafeAt(w, events, i) && Quiet(w, expected, events, i) &&
              GoodAt(w, expected, events, j) && Quiet(w, expected, events, j))
  {
    assert i < j || j < i || i == j;
  }

  lemma RanAfterDiff(events: seq<Event>, j: int)
    ensures RanAt(events, j) ==> DiffBefore(events, |events|)
  {
    if j <= |events| { DiffStays(events, j, |events|); }
  }

  /** A state that is not settled has seen nothing that would settle it. */
  lemma SettledOnce(w: World, expected: Fingerprint, events: seq<Event>, s: Watch)
    requires Says(w, expected, events, |events|, s)
    ensures s.Unsafe? <==> UnsafeFirst(w, expected, events)
    ensures s.Matched? <==> exists i :: GoodAt(w, expected, events, i) && Quiet(w, expected, events, i)
  {
    forall i, j
      ensures !(UnsafeAt(w, events, i) && Quiet(w, expected, events, i) &&
                GoodAt(w, expected, events, j) && Quiet(w, expected, events, j))
    {
      NeverBoth(w, expected, events, i, j);
    }
    if s.NoDiff? {
      forall j
        ensures !RanAt(events, j)
      {
        RanAfterDiff(events, j);
      }
    }
  }

  /**
   Acceptance, on the events: the contract can be checked, event `i` ran a query that returns what the contract
   expects after a diff that did not fail, and nothing that ran between that diff and `i` is good or no query.
   What is submitted is the stripped statement of that event.
   */
  lemma AcceptedAt(w: World, contract: Contract, events: seq<Event>, i: int)
    ensures var r := Online(w, contract, events);
            && (r.accepted && r.eventIndex == i <==>
                  && Checkable(contract) && w.materializes
                  && GoodAt(w, contract.expected.value, events, i) && Quiet(w, contract.expected.value, events, i))
            && (r.accepted && r.eventIndex == i ==>
                  r == Decision(true, Validated, Strip(events[i].sql), i, true, true, true,
                                contract.expected, w.fingerprint(Strip(events[i].sql))))
  {
    if Checkable(contract) {
      var expected := contract.expected.value;
      RunSays(w, expected, events, |events|);
      assert Views(w, events)[..|events|] == Views(w, events);
      var s := Run(w, expected, Views(w, events));
      SettledOnce(w, expected, events, s);
      if s.Matched? { OneGood(w, expected, events, i, s.index); }
    }
  }

  lemma OneGood(w: World, expected: Fingerprint, events: seq<Event>, i: int, j: int)
    ensures GoodAt(w, expected, events, i) && Quiet(w, expected, events, i) ==>
              (GoodAt(w, expected, events, j) && Quiet(w, expected, events, j) ==> i == j)
  {
    assert i < j || j < i || i == j;
  }

  ghost predicate Inspected(events: seq<Event>) {
    exists d :: DiffAt(events, d)
  }

  ghost predicate AnyRan(events: seq<Event>) {
    exists j :: RanAt(events, j)
  }

  ghost predicate AnySafe(w: World, events: seq<Event>) {
    exists i :: SafeAt(w, events, i)
  }

  /** Something that is no query ran before anything good did. */
  ghost predicate UnsafeFirst(w: World, expected: Fingerprint, events: seq<Event>) {
    exists i :: UnsafeAt(w, events, i) && Quiet(w, expected, events, i)
  }

  /** The reason for a refusal, from what the events show. */
  function RefusalReason(contract: Contract, materializes: bool, inspected: bool, ran: bool, unsafe: bool, safe: bool): Reason {
    if contract.expected.None? || contract.expected.value.valueHash == "" then MissingContract
    else if !contract.sourceExists || !contract.hasDiff then MissingSource
    else if !inspected then DiffNotInspected
    else if !ran then NoSafeSuccess
    else if !materializes then MaterializationFailed
    else if unsafe then UnsafeCandidate
    else if !safe then NoSafeSuccess
    else Mismatch
  }

  /** A refusal carries nothing but its reason; a mismatch also says what had been checked. */
  function Refused(reason: Reason, expected: Option<Fingerprint>, succeeded: bool): Decision {
    var checked := reason == Mismatch;
    Decision(false, reason, "", -1, checked, checked, checked && succeeded, if checked then expected else None, None)
  }

  lemma VerdictReason(w: World, contract: Contract, s: Watch, ran: bool, safe: bool)
    requires Checkable(contract)
    requires (s.NoDiff? || (s.Watching? && !s.candidates)) == !ran && (s.Watching? ==> s.safeSuccess == safe)
    ensures var r := Verdict(w, contract.expected.value, s);
            !r.accepted ==>
              r == Refused(RefusalReason(contract, w.materializes, !s.NoDiff?, ran, s.Unsafe?, safe), contract.expected, true)
  {
  }

  lemma StateRan(w: World, expected: Fingerprint, events: seq<Event>, s: Watch)
    requires Says(w, expected, events, |events|, s)
    ensures s.NoDiff? <==> !Inspected(events)
    ensures s.NoDiff? || (s.Watching? && !s.candidates) <==> !AnyRan(events)
    ensures s.Watching? ==> (s.safeSuccess <==> AnySafe(w, events))
  {
    forall j
      ensures RanAt(events, j) ==> DiffBefore(events, |events|)
    {
      RanAfterDiff(events, j);
    }
    forall d | DiffAt(events, d)
      ensures DiffBefore(events, |events|)
    {
    }
  }

  /** Every refusal, with its reason. */
  lemma RefusedBecause(w: World, contract: Contract, events: seq<Event>)
    ensures var r := Online(w, contract, events);
            var unsafe := contract.expected.Some? && UnsafeFirst(w, contract.expected.value, events);
            !r.accepted ==>
              r == Refused(RefusalReason(contract, w.materializes, Inspected(events), AnyRan(events), unsafe, AnySafe(w, events)),
                           contract.expected, true)
  {
    if Checkable(contract) {
      var expected := contract.expected.value;
      RunSays(w, expected, events, |events|);
      assert Views(w, events)[..|events|] == Views(w, events);
      var s := Run(w, expected, Views(w, events));
      SettledOnce(w, expected, events, s);
      StateRan(w, expected, events, s);
      VerdictReason(w, contract, s, AnyRan(events), AnySafe(w, events));
    }
  }

  // ---------------------------------------------------------------------------------
  // The recorded twin: only `tool_name`, only `execution_success`, blank statements too

  predicate LoggedDiff(events: seq<Event>, i: int) {
    0 <= i < |events| && events[i].toolName == Some("inspect_schema_diff") && !events[i].failed
  }

  ghost predicate LoggedRun(events: seq<Event>, i: int) {
    0 <= i < |events| && events[i].toolName == Some("execute_sql") && exists d | d < i :: LoggedDiff(events, d)
  }

  ghost predicate LoggedUnsafe(w: World, events: seq<Event>, i: int) {
    LoggedRun(events, i) && (Strip(events[i].sql) == "" || !w.parsesAsQuery(Strip(events[i].sql)))
  }

  ghost predicate LoggedGood(w: World, expected: Fingerprint, events: seq<Event>, i: int) {
    && LoggedRun(events, i) && Strip(events[i].sql) != "" && w.parsesAsQuery(Strip(events[i].sql))
    && events[i].executionSuccess && events[i].recorded == Some(expected)
  }

  ghost predicate LoggedQuiet(w: World, expected: Fingerprint, events: seq<Event>, n: int) {
    forall j | j < n :: !LoggedUnsafe(w, events, j) && !LoggedGood(w, expected, events, j)
  }

  /** What a conclusion, or the lack of one, says about the first `n` events. */
  ghost predicate Concludes(w: World, expected: Fingerprint, events: seq<Event>, n: int, c: Option<Decision>) {
    if c.None? then LoggedQuiet(w, expected, events, n)
    else exists i | i < n ::
      && LoggedQuiet(w, expected, events, i)
      && ((LoggedUnsafe(w, events, i) && c.value == Refuse(UnsafeCandidate)) ||
          (LoggedGood(w, expected, events, i) &&
             c.value == Decision(true, Validated, Strip(events[i].sql), i, true, true, true,
                                 Some(expected), events[i].recorded)))
  }

  lemma EntryMeans(w: World, expected: Fingerprint, events: seq<Event>, n: nat)
    requires n < |events| && exists d | d < n :: LoggedDiff(events, d)
    ensures var c := Conclude(expected, Read(w, n, events[n]));
            && (c.None? <==> !LoggedUnsafe(w, events, n) && !LoggedGood(w, expected, events, n))
            && (LoggedUnsafe(w, events, n) ==> c == Some(Refuse(UnsafeCandidate)))
            && (LoggedGood(w, expected, events, n) ==>
                  c == Some(Decision(true, Validated, Strip(events[n].sql), n, true, true, true,
                                     Some(expected), events[n].recorded)))
  {
    assert |"execute_sql"| != |"inspect_schema_diff"|;
  }

  lemma ConcludesNext(w: World, expected: Fingerprint, events: seq<Event>, n: nat, c: Option<Decision>)
    requires n < |events| && (exists d | d < n :: LoggedDiff(events, d)) && Concludes(w, expected, events, n, c)
    ensures Concludes(w, expected, events, n + 1, if c.Some? then c else Conclude(expected, Read(w, n, events[n])))
  {
    EntryMeans(w, expected, events, n);
  }

  lemma QuietUpToDiff(w: World, expected: Fingerprint, events: seq<Event>, first: nat, n: nat)
    requires n <= first + 1 && forall d | d < first :: !LoggedDiff(events, d)
    ensures LoggedQuiet(w, expected, events, n)
  {
    forall j | j < n
      ensures !LoggedRun(events, j)
    {
    }
  }

  lemma ConclusionNext(w: World, expected: Fingerprint, events: seq<Event>, first: nat, n: nat)
    requires first < n < |events| && LoggedDiff(events, first)
    requires Concludes(w, expected, events, n, FirstConclusion(expected, first, Reading(w, events), n))
    ensures Concludes(w, expected, events, n + 1, FirstConclusion(expected, first, Reading(w, events), n + 1))
  {
    var c := FirstConclusion(expected, first, Reading(w, events), n);
    assert Reading(w, events)[n] == Read(w, n, events[n]);
    ConcludesNext(w, expected, events, n, c);
  }

  lemma {:induction false} ConclusionMeans(w: World, expected: Fingerprint, events: seq<Event>, first: nat, n: nat)
    requires n <= |events| && LoggedDiff(events, first) && forall d | d < first :: !LoggedDiff(events, d)
    ensures Concludes(w, expected, events, n, FirstConclusion(expected, first, Reading(w, events), n))
  {
    if n <= first + 1 {
      QuietUpToDiff(w, expected, events, first, n);
    } else {
      ConclusionMeans(w, expected, events, first, n - 1);
      ConclusionNext(w, expected, events, first, n - 1);
    }
  }

  lemma AuditedDiffs(w: World, events: seq<Event>)
    ensures var first := FirstAudited(Reading(w, events));
            if first.None? then forall d :: !LoggedDiff(events, d)
            else LoggedDiff(events, first.value) && forall d | d < first.value :: !LoggedDiff(events, d)
  {
    var entries := Reading(w, events);
    forall i | 0 <= i < |events|
      ensures entries[i].AuditedDiff? <==> LoggedDiff(events, i)
    {
    }
  }

  lemma NeverBothLogged(w: World, expected: Fingerprint, events: seq<Event>, i: int, j: int)
    ensures LoggedGood(w, expected, events, j) && LoggedQuiet(w, expected, events, j) ==>
              && !(LoggedUnsafe(w, events, i) && LoggedQuiet(w, expected, events, i))
              && (LoggedGood(w, expected, events, i) && LoggedQuiet(w, expected, events, i) ==> i == j)
  {
    assert i < j || j < i || i == j;
  }

  /** The audit accepts at `i` exactly when the log shows a good event there and nothing settles the matter before. */
  lemma LoggedAcceptedAt(w: World, expected: Fingerprint, events: seq<Event>, i: int)
    ensures var r := Recorded(w, expected, events);
            && (r.accepted && r.eventIndex == i <==>
                  LoggedGood(w, expected, events, i) && LoggedQuiet(w, expected, events, i))
            && (r.accepted && r.eventIndex == i ==>
                  r == Decision(true, Validated, Strip(events[i].sql), i, true, true, true,
                                Some(expected), events[i].recorded))
  {
    AuditedDiffs(w, events);
    var first := FirstAudited(Reading(w, events));
    if first.Some? {
      ConclusionMeans(w, expected, events, first.value, |events|);
      forall j
        ensures LoggedGood(w, expected, events, i) && LoggedQuiet(w, expected, events, i) ==>
                  && !(LoggedUnsafe(w, events, j) && LoggedQuiet(w, expected, events, j))
                  && (LoggedGood(w, expected, events, j) && LoggedQuiet(w, expected, events, j) ==> i == j)
      {
        NeverBothLogged(w, expected, events, j, i);
      }
    }
  }

  /** And it refuses for one of three reasons. */
  lemma LoggedRefusedBecause(w: World, expected: Fingerprint, events: seq<Event>)
    ensures var r := Recorded(w, expected, events);
            !r.accepted ==>
              r == Refused(if !exists d :: LoggedDiff(events, d) then DiffNotInspected
                           else if exists i :: LoggedUnsafe(w, events, i) && LoggedQuiet(w, expected, events, i)
                           then UnsafeCandidate else Mismatch,
                           Some(expected), false)
  {
    AuditedDiffs(w, events);
    var first := FirstAudited(Reading(w, events));
    if first.Some? { ConclusionMeans(w, expected, events, first.value, |events|); }
  }
}
