/** The backwards recovery scan refines the automaton of `StatePolicy.Tracker`. */
module RecoveryScan {
  import opened Prelude
  import opened StatePolicy

  predicate Increasing(es: seq<Completed>) {
    forall i, j | 0 <= i < j < |es| :: es[i].index < es[j].index
  }

  predicate Below(es: seq<Completed>, bound: int) {
    forall i | 0 <= i < |es| :: es[i].index < bound
  }

  ghost predicate AllBelow(s: seq<int>, bound: int) {
    forall i | 0 <= i < |s| :: s[i] < bound
  }

  lemma {:induction false} ValidBelow(es: seq<Completed>, bound: int)
    requires Below(es, bound)
    ensures Below(ValidOnly(es), bound)
  {
    if es != [] { ValidBelow(es[..|es| - 1], bound); }
  }

  lemma {:induction false} PositionsBelow(valid: seq<Completed>, bound: int)
    requires Below(valid, bound)
    ensures AllBelow(TriggerPositions(valid), bound)
  {
    if valid != [] { PositionsBelow(valid[..|valid| - 1], bound); }
  }

  lemma {:induction false} VersionsBelow(valid: seq<Completed>, mismatch: int, bound: int)
    requires Below(valid, bound)
    ensures AllBelow(VersionsAfter(valid, mismatch), bound)
  {
    if valid != [] { VersionsBelow(valid[..|valid| - 1], mismatch, bound); }
  }

  lemma {:induction false} LeastIsLeast(s: seq<int>)
    requires s != []
    ensures Least(s) in s && forall x | x in s :: Least(s) <= x
  {
    if |s| > 1 { LeastIsLeast(s[..|s| - 1]); assert s == s[..|s| - 1] + [s[|s| - 1]]; }
  }

  /** Versions after a later mismatch are versions after an earlier one. */
  lemma {:induction false} VersionsAfterMonotone(valid: seq<Completed>, early: int, late: int)
    requires early <= late
    ensures VersionsAfter(valid, late) != [] ==> VersionsAfter(valid, early) != []
  {
    if valid != [] { VersionsAfterMonotone(valid[..|valid| - 1], early, late); }
  }

  ghost predicate HasPair(valid: seq<Completed>) {
    exists v, d | v in valid && d in valid ::
      v.tool == GetSchemaVersion && d.tool == InspectSchemaDiff && v.index < d.index
  }

  ghost predicate HasVersion(valid: seq<Completed>) {
    exists v | v in valid :: v.tool == GetSchemaVersion
  }

  /** A new event leaves the verdict on past positions alone, unless it is a version or a diff. */
  lemma {:induction false} ScanIgnores(valid: seq<Completed>, e: Completed, positions: seq<int>)
    requires Below(valid, e.index) && AllBelow(positions, e.index)
    requires e.tool != GetSchemaVersion && e.tool != InspectSchemaDiff
    ensures ScanTriggers(valid + [e], positions) == ScanTriggers(valid, positions)
  {
    if positions != [] {
      var k := |positions| - 1;
      assert (valid + [e])[..|valid|] == valid;
      RecoveredStable(valid, e, positions[k]);
      ScanIgnores(valid, e, positions[..k]);
      var after := VersionsAfter(valid, positions[k]);
      assert VersionsAfter(valid + [e], positions[k]) == after;
      if after != [] { DiffStable(valid, e, Least(after)); }
    }
  }

  lemma RecoveredStable(valid: seq<Completed>, e: Completed, p: int)
    requires p < e.index
    ensures AlreadyRecovered(valid + [e], p) == AlreadyRecovered(valid, p)
  {
    if AlreadyRecovered(valid, p) {
      var v, d :| v in valid && d in valid &&
        v.tool == GetSchemaVersion && d.tool == InspectSchemaDiff && v.index < d.index < p;
      assert v in valid + [e] && d in valid + [e];
    }
  }

  /** A version turns the demand for a version into the demand for a diff. */
  lemma {:induction false} ScanVersion(valid: seq<Completed>, e: Completed, positions: seq<int>)
    requires Below(valid, e.index) && AllBelow(positions, e.index)
    requires e.tool == GetSchemaVersion
    ensures ScanTriggers(valid + [e], positions) ==
            if ScanTriggers(valid, positions).None? then None else Some(InspectSchemaDiff)
  {
    if positions != [] {
      var k := |positions| - 1;
      var p := positions[k];
      var past, now := VersionsAfter(valid, p), VersionsAfter(valid + [e], p);
      assert (valid + [e])[..|valid|] == valid;
      assert now == past + [e.index];
      RecoveredStable(valid, e, p);
      ScanVersion(valid, e, positions[..k]);
      VersionsBelow(valid, p, e.index);
      LeastIsLeast(now);
      if past != [] {
        LeastIsLeast(past);
        assert Least(past) in now;
        assert Least(now) == Least(past);
      } else {
        assert now == [e.index];
      }
      DiffStable(valid, e, Least(now));
    }
  }

  lemma DiffStable(valid: seq<Completed>, e: Completed, x: int)
    requires e.tool != InspectSchemaDiff
    ensures HasDiffAfter(valid + [e], x) == HasDiffAfter(valid, x)
  {
    if HasDiffAfter(valid, x) {
      var d :| d in valid && d.index > x && d.tool == InspectSchemaDiff;
      assert d in valid + [e];
    }
  }

  /** Once a version follows `bound`, a newest diff clears every earlier position. */
  lemma {:induction false} ScanClears(valid: seq<Completed>, e: Completed, positions: seq<int>, bound: int)
    requires Below(valid, e.index) && AllBelow(positions, bound + 1)
    requires e.tool == InspectSchemaDiff && VersionsAfter(valid, bound) != []
    ensures ScanTriggers(valid + [e], positions) == None
  {
    if positions != [] {
      var k := |positions| - 1;
      var p := positions[k];
      assert (valid + [e])[..|valid|] == valid;
      assert VersionsAfter(valid + [e], p) == VersionsAfter(valid, p);
      VersionsAfterMonotone(valid, p, bound);
      VersionsBelow(valid, p, e.index);
      LeastIsLeast(VersionsAfter(valid, p));
      assert e in valid + [e];
      ScanClears(valid, e, positions[..k], bound);
    }
  }

  ghost predicate SortedInts(s: seq<int>) {
    forall i, j | 0 <= i < j < |s| :: s[i] < s[j]
  }

  /** A diff discharges the demand for a diff, at every trigger at once. */
  lemma {:induction false} ScanDiff(valid: seq<Completed>, e: Completed, positions: seq<int>)
    requires Below(valid, e.index) && AllBelow(positions, e.index)
    requires SortedInts(positions)
    requires e.tool == InspectSchemaDiff
    ensures ScanTriggers(valid + [e], positions) ==
            if ScanTriggers(valid, positions) == Some(GetSchemaVersion) then Some(GetSchemaVersion) else None
  {
    if positions != [] {
      var k := |positions| - 1;
      var p := positions[k];
      assert (valid + [e])[..|valid|] == valid;
      var after := VersionsAfter(valid, p);
      assert VersionsAfter(valid + [e], p) == after;
      RecoveredStable(valid, e, p);
      ScanDiff(valid, e, positions[..k]);
      if after != [] {
        VersionsBelow(valid, p, e.index);
        LeastIsLeast(after);
        assert e in valid + [e];
        assert HasDiffAfter(valid + [e], Least(after));
        ScanClears(valid, e, positions[..k], p);
      }
    }
  }

  lemma {:induction false} PositionsSorted(valid: seq<Completed>)
    requires Increasing(valid)
    ensures SortedInts(TriggerPositions(valid))
  {
    if valid != [] {
      var k := |valid| - 1;
      PositionsSorted(valid[..k]);
      PositionsBelow(valid[..k], valid[k].index);
    }
  }

  lemma {:induction false} ValidIncreasing(es: seq<Completed>)
    requires Increasing(es)
    ensures Increasing(ValidOnly(es))
  {
    if es != [] {
      var k := |es| - 1;
      ValidIncreasing(es[..k]);
      assert Below(es[..k], es[k].index);
      ValidBelow(es[..k], es[k].index);
    }
  }

  ghost predicate Agrees(valid: seq<Completed>, t: Tracker) {
    && Verdict(valid) == RequiredBy(t.phase)
    && t.pairSeen == HasPair(valid)
    && t.versionSeen == HasVersion(valid)
  }

  lemma AgreesStep(past: seq<Completed>, e: Completed, t: Tracker)
    requires Below(past, e.index) && Increasing(past) && Agrees(past, t)
    requires !e.observation.actionMasked
    ensures Agrees(past + [e], Advance(t, e.tool, e.observation))
  {
    PairStep(past, e);
    PhaseStep(past, e, t);
  }

  ghost function Verdict(valid: seq<Completed>): Option<Tool> {
    ScanTriggers(valid, TriggerPositions(valid))
  }

  lemma VersionStep(past: seq<Completed>, e: Completed)
    requires Below(past, e.index) && e.tool == GetSchemaVersion
    ensures Verdict(past + [e]) == if Verdict(past).None? then None else Some(InspectSchemaDiff)
  {
    PositionsBelow(past, e.index);
    PositionsStep(past, e);
    ScanVersion(past, e, TriggerPositions(past));
  }

  lemma DiffStep(past: seq<Completed>, e: Completed)
    requires Below(past, e.index) && Increasing(past) && e.tool == InspectSchemaDiff
    ensures Verdict(past + [e]) ==
            if Verdict(past) == Some(GetSchemaVersion) then Some(GetSchemaVersion) else None
  {
    PositionsBelow(past, e.index);
    PositionsSorted(past);
    PositionsStep(past, e);
    ScanDiff(past, e, TriggerPositions(past));
  }

  lemma QuietStep(past: seq<Completed>, e: Completed)
    requires Below(past, e.index) && !IsTrigger(e.tool, e.observation)
    requires e.tool != GetSchemaVersion && e.tool != InspectSchemaDiff
    ensures Verdict(past + [e]) == Verdict(past)
  {
    PositionsBelow(past, e.index);
    PositionsStep(past, e);
    ScanIgnores(past, e, TriggerPositions(past));
  }

  lemma PhaseStep(past: seq<Completed>, e: Completed, t: Tracker)
    requires Below(past, e.index) && Increasing(past)
    requires Verdict(past) == RequiredBy(t.phase)
    requires t.pairSeen == HasPair(past)
    ensures Verdict(past + [e]) == RequiredBy(NextPhase(t, e.tool, e.observation))
  {
    if e.tool == GetSchemaVersion {
      VersionStep(past, e);
    } else if e.tool == InspectSchemaDiff {
      DiffStep(past, e);
    } else if IsTrigger(e.tool, e.observation) {
      TriggerStep(past, e);
    } else {
      QuietStep(past, e);
    }
  }

  lemma PositionsStep(past: seq<Completed>, e: Completed)
    ensures !IsTrigger(e.tool, e.observation) ==> TriggerPositions(past + [e]) == TriggerPositions(past)
    ensures IsTrigger(e.tool, e.observation) ==>
              TriggerPositions(past + [e]) == TriggerPositions(past) + [e.index]
  {
    assert (past + [e])[..|past|] == past;
  }

  /** A fresh trigger demands a version, unless a recovery pair precedes it. */
  lemma TriggerStep(past: seq<Completed>, e: Completed)
    requires Below(past, e.index) && IsTrigger(e.tool, e.observation)
    ensures Verdict(past + [e]) == if HasPair(past) then Verdict(past) else Some(GetSchemaVersion)
  {
    var positions := TriggerPositions(past);
    PositionsBelow(past, e.index);
    ScanIgnores(past, e, positions);
    assert (past + [e])[..|past|] == past;
    assert TriggerPositions(past + [e]) == positions + [e.index];
    assert (positions + [e.index])[..|positions|] == positions;
    RecoveredNow(past, e);
    NoVersionsAfter(past + [e], e.index);
  }

  lemma RecoveredNow(past: seq<Completed>, e: Completed)
    requires Below(past, e.index)
    ensures AlreadyRecovered(past + [e], e.index) == HasPair(past)
  {
    if HasPair(past) {
      var v, d :| v in past && d in past &&
        v.tool == GetSchemaVersion && d.tool == InspectSchemaDiff && v.index < d.index;
      assert v in past + [e] && d in past + [e];
    }
  }

  /**
   The nested backwards scan equals the three-state automaton, for every strictly increasing
   numbering of the events.  So only the last unrecovered trigger matters, masked events are
   invisible, and the numbering itself is irrelevant.
   */
  lemma {:induction false} ScanIsAutomaton(es: seq<Completed>)
    requires Increasing(es)
    ensures RequiredRecoveryAction(es) == RequiredBy(Track(EntriesOf(es)).phase)
    ensures Track(EntriesOf(es)).pairSeen == HasPair(ValidOnly(es))
  {
    ScanAgrees(es);
  }

  lemma {:induction false} ScanAgrees(es: seq<Completed>)
    requires Increasing(es)
    ensures Agrees(ValidOnly(es), Track(EntriesOf(es)))
  {
    if es == [] {
      EmptyAgrees();
    } else {
      var k := |es| - 1;
      var init, e := es[..k], es[k];
      ScanAgrees(init);
      assert Below(init, e.index);
      ValidBelow(init, e.index);
      ValidIncreasing(init);
      var t := Track(EntriesOf(init));
      TrackLast(es);
      if e.observation.actionMasked {
        assert ValidOnly(es) == ValidOnly(init);
        assert Track(EntriesOf(es)) == t;
      } else {
        assert ValidOnly(es) == ValidOnly(init) + [e];
        AgreesStep(ValidOnly(init), e, t);
        assert Track(EntriesOf(es)) == Advance(t, e.tool, e.observation);
      }
    }
  }

  lemma EmptyAgrees()
    ensures Agrees([], START)
  {
  }

  lemma TrackLast(es: seq<Completed>)
    requires es != []
    ensures var k := |es| - 1;
            Track(EntriesOf(es)) == Advance(Track(EntriesOf(es[..k])), es[k].tool, es[k].observation)
  {
    assert EntriesOf(es)[..|es| - 1] == EntriesOf(es[..|es| - 1]);
  }

  lemma {:induction false} NoVersionsAfter(valid: seq<Completed>, bound: int)
    requires Below(valid, bound + 1)
    ensures VersionsAfter(valid, bound) == []
  {
    if valid != [] { NoVersionsAfter(valid[..|valid| - 1], bound); }
  }

  lemma PairStep(past: seq<Completed>, e: Completed)
    requires Below(past, e.index)
    ensures HasPair(past + [e]) == (HasPair(past) || (e.tool == InspectSchemaDiff && HasVersion(past)))
    ensures HasVersion(past + [e]) == (HasVersion(past) || e.tool == GetSchemaVersion)
  {
    if HasPair(past) {
      var v, d :| v in past && d in past &&
        v.tool == GetSchemaVersion && d.tool == InspectSchemaDiff && v.index < d.index;
      assert v in past + [e] && d in past + [e];
    }
    if HasVersion(past) {
      var v :| v in past && v.tool == GetSchemaVersion;
      assert v in past + [e] && e in past + [e];
    }
    assert e in past + [e];
  }
}
