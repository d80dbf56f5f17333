/**
 What a finished evaluation run has spent and recorded, from the answers of the tokenizer, the model and the
 parser alone: one line for every model call, and the reason why there was no further one.
 */
module RunLedgers {
  import opened Prelude
  import opened BudgetRunner

  type Answers = nat -> Input

  function Prompts(f: Answers, n: nat): nat {
    if n == 0 then 0 else Prompts(f, n - 1) + f(n - 1).prompt
  }

  function Sum(s: seq<nat>): nat {
    if s == [] then 0 else Sum(s[..|s| - 1]) + s[|s| - 1]
  }

  /** The prompt of round `t` is short enough, and leaves something of the total budget. */
  predicate Admissible(b: Budget, f: Answers, handed: seq<nat>, t: nat) {
    f(t).prompt <= b.maxPromptTokens && Prompts(f, t) + Sum(handed) + f(t).prompt < b.maxTotalTokens
  }

  /** `cut` tokens of round `t` are handed on: all of them, or as many as one of the two budgets has left. */
  predicate IsCut(b: Budget, f: Answers, handed: seq<nat>, t: nat, cut: nat) {
    var used, spent := Sum(handed) + cut, Prompts(f, t) + f(t).prompt + Sum(handed) + cut;
    && cut <= f(t).tokens && used <= b.maxNewTokens && spent <= b.maxTotalTokens
    && (cut == f(t).tokens || used == b.maxNewTokens || spent == b.maxTotalTokens)
  }

  /** Every round had an admissible prompt, and this is what it handed on. */
  ghost predicate Handed(b: Budget, f: Answers, handed: seq<nat>) {
    forall t | 0 <= t < |handed| :: Admissible(b, f, handed[..t], t) && IsCut(b, f, handed[..t], t, handed[t])
  }

  /** What the parser made of round `t`. */
  function Parsed(f: Answers, handed: seq<nat>, t: nat): Action
    requires t < |handed|
  {
    f(t).action(handed[t])
  }

  /** A statement that ran: round `t` is the first to run out of tool calls or executions when there are only `t`. */
  predicate Runs(b: Budget, a: Action, t: nat) {
    a.tool == "execute_sql" && a.sql != "" && t < b.maxToolCalls && t < b.maxSqlExecutions
  }

  predicate AllRan(b: Budget, f: Answers, handed: seq<nat>, n: nat)
    requires n <= |handed|
  {
    forall t | 0 <= t < n :: Runs(b, Parsed(f, handed, t), t)
  }

  /** Why the action of round `t` ends the run. */
  function EndOf(b: Budget, a: Action, t: nat): Reason {
    if a.tool == "" || a.sql == "" then InvalidAction
    else if b.maxToolCalls <= t then ToolBudget
    else if a.tool == "submit_solution" then Submitted
    else if a.tool == "execute_sql" then SqlExecutionBudget
    else UnknownTool
  }

  /** What was paid for the calls. */
  ghost predicate Paid(b: Budget, f: Answers, s: Episode, handed: seq<nat>) {
    && Handed(b, f, handed)
    && s.modelCalls == |handed| && s.promptTokens == Prompts(f, |handed|) && s.newTokens == Sum(handed)
  }

  /** What the record shows: every round, and whether its statement ran. */
  ghost predicate Shows(b: Budget, f: Answers, s: Episode, handed: seq<nat>) {
    && |s.trajectory| == |handed|
    && forall t | 0 <= t < |handed| ::
         s.trajectory[t] == Record(t, Parsed(f, handed, t), Runs(b, Parsed(f, handed, t), t))
  }

  /** All rounds ran a statement, and nothing or the prompt of the next one ended the run. */
  ghost predicate StillRunning(b: Budget, f: Answers, s: Episode, handed: seq<nat>, n: nat) {
    var m := |handed|;
    && AllRan(b, f, handed, m) && s.toolCalls == s.sqlExecutions == m && s.finalSql == ""
    && (if m == n then s.reason == Running
        else m < n && !Admissible(b, f, handed, m) &&
             s.reason == if f(m).prompt > b.maxPromptTokens then PromptTooLong else TotalTokenBudget)
  }

  /** All rounds but the last ran a statement, and the action of the last one ended the run. */
  ghost predicate EndedByAction(b: Budget, f: Answers, s: Episode, handed: seq<nat>, n: nat) {
    && 0 < |handed| <= n
    && var m := |handed| - 1;
       var last := Parsed(f, handed, m);
       && AllRan(b, f, handed, m) && !Runs(b, last, m) && s.reason == EndOf(b, last, m)
       && s.sqlExecutions == m
       && s.toolCalls == (if last.tool == "" || last.sql == "" || b.maxToolCalls <= m then m else m + 1)
       && s.finalSql == if s.reason == Submitted then last.sql else ""
  }

  /** The whole account of an episode after `n` rounds. */
  ghost predicate Ledger(b: Budget, f: Answers, s: Episode, handed: seq<nat>, n: nat) {
    && Paid(b, f, s, handed) && Shows(b, f, s, handed)
    && (StillRunning(b, f, s, handed, n) || EndedByAction(b, f, s, handed, n))
  }

  // ---------------------------------------------------------------------------------
  // One more round

  lemma SumSnoc(handed: seq<nat>, cut: nat)
    ensures Sum(handed + [cut]) == Sum(handed) + cut
  {
    assert (handed + [cut])[..|handed|] == handed;
  }

  lemma PaidOnceMore(b: Budget, f: Answers, s: Episode, handed: seq<nat>, cut: nat)
    requires Paid(b, f, s, handed) && Fits(b, s, f(|handed|).prompt) && s.newTokens <= b.maxNewTokens
    requires cut == Affordable(b, s, f(|handed|).prompt, f(|handed|).tokens)
    ensures Paid(b, f, Charge(b, s, f(|handed|).prompt, f(|handed|).tokens), handed + [cut])
  {
    var more := handed + [cut];
    SumSnoc(handed, cut);
    forall t | 0 <= t < |more|
      ensures Admissible(b, f, more[..t], t) && IsCut(b, f, more[..t], t, more[t])
    {
      if t < |handed| {
        assert more[..t] == handed[..t] && more[t] == handed[t];
      } else {
        assert more[..t] == handed;
      }
    }
  }

  lemma {:induction false} PaidInBudget(b: Budget, f: Answers, handed: seq<nat>)
    requires Handed(b, f, handed)
    ensures Sum(handed) <= b.maxNewTokens
  {
    if handed != [] {
      var k := |handed| - 1;
      assert IsCut(b, f, handed[..k], k, handed[k]);
    }
  }

  lemma ParsedSnoc(f: Answers, handed: seq<nat>, cut: nat)
    ensures forall t | 0 <= t < |handed| :: Parsed(f, handed + [cut], t) == Parsed(f, handed, t)
    ensures Parsed(f, handed + [cut], |handed|) == f(|handed|).action(cut)
  {
  }

  lemma ShowsOnceMore(b: Budget, f: Answers, s: Episode, s': Episode, handed: seq<nat>, cut: nat)
    requires Shows(b, f, s, handed)
    requires var m := |handed|; var a := f(m).action(cut);
             s'.trajectory == s.trajectory + [Record(m, a, Runs(b, a, m))]
    ensures Shows(b, f, s', handed + [cut])
  {
    ParsedSnoc(f, handed, cut);
  }

  /** What an action does to an episode that has run a statement in every round. */
  lemma ActMeans(b: Budget, c: Episode, m: nat, a: Action)
    requires c.reason == Running && c.finalSql == "" && c.toolCalls == c.sqlExecutions == m
    ensures var s := Act(b, c, m, a);
            && s.modelCalls == c.modelCalls && s.promptTokens == c.promptTokens && s.newTokens == c.newTokens
            && s.trajectory == c.trajectory + [Record(m, a, Runs(b, a, m))]
            && s.reason == (if Runs(b, a, m) then Running else EndOf(b, a, m))
            && s.sqlExecutions == (if Runs(b, a, m) then m + 1 else m)
            && s.toolCalls == (if a.tool == "" || a.sql == "" || b.maxToolCalls <= m then m else m + 1)
            && s.finalSql == if s.reason == Submitted then a.sql else ""
  {
    assert |"execute_sql"| != |"submit_solution"|;
  }

  lemma EndsOnceMore(b: Budget, f: Answers, s: Episode, s': Episode, handed: seq<nat>, cut: nat)
    requires AllRan(b, f, handed, |handed|)
    requires var m := |handed|; var a := f(m).action(cut);
             && s'.reason == (if Runs(b, a, m) then Running else EndOf(b, a, m))
             && s'.sqlExecutions == (if Runs(b, a, m) then m + 1 else m)
             && s'.toolCalls == (if a.tool == "" || a.sql == "" || b.maxToolCalls <= m then m else m + 1)
             && s'.finalSql == if s'.reason == Submitted then a.sql else ""
    ensures var n := |handed| + 1;
            StillRunning(b, f, s', handed + [cut], n) || EndedByAction(b, f, s', handed + [cut], n)
  {
    ParsedSnoc(f, handed, cut);
  }

  lemma CalledOnceMore(b: Budget, f: Answers, s: Episode, handed: seq<nat>) returns (more: seq<nat>)
    requires Ledger(b, f, s, handed, |handed|) && s.reason == Running && Fits(b, s, f(|handed|).prompt)
    ensures Ledger(b, f, Turn(b, true, s, |handed|, f(|handed|)), more, |handed| + 1)
  {
    var m := |handed|;
    var x := f(m);
    var cut := Affordable(b, s, x.prompt, x.tokens);
    more := handed + [cut];
    RunningIsStill(b, f, s, handed, m);
    PaidInBudget(b, f, handed);
    PaidOnceMore(b, f, s, handed, cut);
    var c := Charge(b, s, x.prompt, x.tokens);
    var s' := Act(b, c, m, x.action(cut));
    ActMeans(b, c, m, x.action(cut));
    ShowsOnceMore(b, f, s, s', handed, cut);
    EndsOnceMore(b, f, s, s', handed, cut);
  }

  lemma RunningIsStill(b: Budget, f: Answers, s: Episode, handed: seq<nat>, n: nat)
    requires Ledger(b, f, s, handed, n) && s.reason == Running
    ensures StillRunning(b, f, s, handed, n) && |handed| == n
  {
  }

  lemma StoppedStays(b: Budget, f: Answers, s: Episode, handed: seq<nat>, n: nat)
    requires Ledger(b, f, s, handed, n) && s.reason != Running
    ensures Ledger(b, f, s, handed, n + 1)
  {
  }

  lemma RefusedStops(b: Budget, f: Answers, s: Episode, handed: seq<nat>, n: nat)
    requires Ledger(b, f, s, handed, n) && s.reason == Running && !Fits(b, s, f(n).prompt)
    ensures Ledger(b, f, Admit(b, s, f(n).prompt), handed, n + 1)
  {
    RunningIsStill(b, f, s, handed, n);
  }

  lemma {:induction false} PlayLedger(b: Budget, oracle: Oracle, state: State, n: nat) returns (handed: seq<nat>)
    ensures Ledger(b, (t: nat) => oracle(t, state), Play(b, true, oracle, state, n), handed, n)
  {
    var f := (t: nat) => oracle(t, state);
    if n == 0 {
      handed := [];
    } else {
      handed := PlayLedger(b, oracle, state, n - 1);
      var s := Play(b, true, oracle, state, n - 1);
      if s.reason != Running {
        StoppedStays(b, f, s, handed, n - 1);
      } else if !Fits(b, s, f(n - 1).prompt) {
        RefusedStops(b, f, s, handed, n - 1);
      } else {
        RunningIsStill(b, f, s, handed, n - 1);
        handed := CalledOnceMore(b, f, s, handed);
      }
    }
  }

  // ---------------------------------------------------------------------------------
  // Finished runs

  /** Either every round ran a statement, and then a limit or the next prompt ended the run; or an action did. */
  ghost predicate Account(b: Budget, f: Answers, s: Episode, handed: seq<nat>) {
    var m := |handed|;
    && m <= b.maxModelCalls && Paid(b, f, s, handed) && Shows(b, f, s, handed)
    && if AllRan(b, f, handed, m) then
         && s.toolCalls == s.sqlExecutions == m && s.finalSql == ""
         && (if m == b.maxModelCalls then s.reason == TurnLimit
             else if f(m).prompt > b.maxPromptTokens then s.reason == PromptTooLong
             else s.reason == TotalTokenBudget && Prompts(f, m) + Sum(handed) + f(m).prompt >= b.maxTotalTokens)
       else
         EndedByAction(b, f, s, handed, b.maxModelCalls)
  }

  /** The account of every episode that `run_react` has finished. */
  lemma ReactAccount(b: Budget, oracle: Oracle, state: State) returns (handed: seq<nat>)
    ensures Account(b, (t: nat) => oracle(t, state), Finish(Play(b, true, oracle, state, b.maxModelCalls)), handed)
  {
    handed := PlayLedger(b, oracle, state, b.maxModelCalls);
    FinishedAccount(b, (t: nat) => oracle(t, state), Play(b, true, oracle, state, b.maxModelCalls), handed);
  }

  lemma FinishedAccount(b: Budget, f: Answers, s: Episode, handed: seq<nat>)
    requires Ledger(b, f, s, handed, b.maxModelCalls)
    ensures Account(b, f, Finish(s), handed)
  {
    var m := |handed|;
    if StillRunning(b, f, s, handed, b.maxModelCalls) {
      assert AllRan(b, f, handed, m);
    } else {
      assert !Runs(b, Parsed(f, handed, m - 1), m - 1);
    }
  }

  lemma CutOnce(b: Budget, f: Answers, handed: seq<nat>, t: nat, cut: nat, other: nat)
    requires IsCut(b, f, handed, t, cut) && IsCut(b, f, handed, t, other)
    ensures cut == other
  {
  }

  lemma SameSnoc(s: seq<nat>, r: seq<nat>, k: nat)
    requires |s| == |r| == k + 1 && s[..k] == r[..k] && s[k] == r[k]
    ensures r == s
  {
    assert s == s[..k] + [s[k]] && r == r[..k] + [r[k]];
  }

  lemma HandedBefore(b: Budget, f: Answers, handed: seq<nat>, k: nat)
    requires Handed(b, f, handed) && k <= |handed|
    ensures Handed(b, f, handed[..k])
  {
    forall t | 0 <= t < k
      ensures Admissible(b, f, handed[..k][..t], t) && IsCut(b, f, handed[..k][..t], t, handed[..k][t])
    {
      assert handed[..k][..t] == handed[..t];
    }
  }

  /** There is only one account: what was handed on is determined by the answers. */
  lemma {:induction false} OneAccount(b: Budget, f: Answers, handed: seq<nat>, other: seq<nat>)
    requires Handed(b, f, handed) && Handed(b, f, other) && |other| == |handed|
    ensures other == handed
  {
    if handed != [] {
      var k := |handed| - 1;
      HandedBefore(b, f, handed, k);
      HandedBefore(b, f, other, k);
      OneAccount(b, f, handed[..k], other[..k]);
      CutOnce(b, f, handed[..k], k, handed[k], other[k]);
      SameSnoc(handed, other, k);
    }
  }

  /** Why an episode that has spent nothing is not generated for. */
  function Unpaid(b: Budget, prompt: nat): Reason {
    if prompt > b.maxPromptTokens then PromptTooLong
    else if prompt >= b.maxTotalTokens then TotalTokenBudget
    else GenerationNotRun
  }

  /** Ended for the given reason before anything was generated. */
  predicate Unspent(s: Episode, reason: Reason) {
    && s.reason == reason && |s.trajectory| == 0 && |s.finalSql| == 0
    && s.modelCalls == s.toolCalls == s.sqlExecutions == s.promptTokens == s.newTokens == 0
  }

  lemma IdleTurn(b: Budget, s: Episode, x: Input)
    requires Unspent(s, Running)
    ensures Unspent(Turn(b, false, s, 0, x), Unpaid(b, x.prompt))
  {
  }

  lemma {:induction false} IdlePlay(b: Budget, oracle: Oracle, state: State, n: nat)
    ensures Unspent(Play(b, false, oracle, state, n), if n == 0 then Running else Unpaid(b, oracle(0, state).prompt))
  {
    if n == 1 {
      IdleTurn(b, Play(b, false, oracle, state, 0), oracle(0, state));
    } else if n > 1 {
      IdlePlay(b, oracle, state, n - 1);
    }
  }

  /** With a negative batch size nothing is generated, and nothing is paid. */
  lemma NothingGenerated(b: Budget, oracle: Oracle, state: State)
    ensures Unspent(Finish(Play(b, false, oracle, state, b.maxModelCalls)),
                    if b.maxModelCalls == 0 then TurnLimit else Unpaid(b, oracle(0, state).prompt))
  {
    IdlePlay(b, oracle, state, b.maxModelCalls);
  }

  /** One direct episode: refused, or paid for once, with its statement taken from what is handed on. */
  ghost predicate DirectAccount(b: Budget, generates: bool, s: Episode, x: Input, cut: nat) {
    var a := x.action(cut);
    if x.prompt > b.maxPromptTokens || x.prompt >= b.maxTotalTokens || !generates then
      Unspent(s, Unpaid(b, x.prompt))
    else
      && cut <= x.tokens && cut <= b.maxNewTokens && x.prompt + cut <= b.maxTotalTokens
      && (cut == x.tokens || cut == b.maxNewTokens || x.prompt + cut == b.maxTotalTokens)
      && s.modelCalls == 1 && s.promptTokens == x.prompt && s.newTokens == cut
      && s.toolCalls == s.sqlExecutions == 0 && s.finalSql == a.sql
      && s.reason == (if a.sql != "" then Submitted else InvalidOutput)
      && |s.trajectory| == 1 && s.trajectory[0] == Record(0, a, false)
  }

  lemma DirectFrom(b: Budget, generates: bool, s: Episode, x: Input) returns (cut: nat)
    requires Unspent(s, Running)
    ensures DirectAccount(b, generates, Direct(b, generates, s, x), x, cut)
  {
    cut := Affordable(b, s, x.prompt, x.tokens);
  }

  /** The account of every episode that `run_direct` has finished. */
  lemma DirectHasAccount(b: Budget, generates: bool, x: Input) returns (cut: nat)
    ensures DirectAccount(b, generates, Direct(b, generates, FRESH, x), x, cut)
  {
    cut := DirectFrom(b, generates, FRESH, x);
  }
}
