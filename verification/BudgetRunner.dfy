/**
 The evaluation runner's budget accounting: one shared budget, many episodes, batched generation.
 Each episode is an object that the loops update in place; `Turn` says what one round does to one
 episode, whatever the model answers and however long its prompts are.
 */
module BudgetRunner {
  import opened Prelude

  datatype Budget = Budget(maxModelCalls: nat, maxToolCalls: nat, maxSqlExecutions: nat, maxNewTokens: nat,
                           maxPromptTokens: nat, maxTotalTokens: nat)

  const DEFAULT := Budget(5, 5, 3, 3072, 16384, 32768)

  datatype Reason =
    | Running | PromptTooLong | TotalTokenBudget | GenerationNotRun | InvalidAction | ToolBudget
    | Submitted | UnknownTool | SqlExecutionBudget | TurnLimit | InvalidOutput

  /** The parsed action; an empty tool or an empty statement is an invalid one. */
  datatype Action = Action(tool: string, sql: string)

  datatype Record = Record(turn: nat, action: Action, observed: bool)

  datatype Episode = Episode(trajectory: seq<Record>, finalSql: string, reason: Reason, modelCalls: nat,
                             toolCalls: nat, sqlExecutions: nat, promptTokens: nat, newTokens: nat)

  const FRESH := Episode([], "", Running, 0, 0, 0, 0, 0)

  // ---------------------------------------------------------------------------------
  // What one round does to one episode

  function Total(s: Episode): nat {
    s.promptTokens + s.newTokens
  }

  predicate Fits(b: Budget, s: Episode, prompt: nat) {
    prompt <= b.maxPromptTokens && Total(s) + prompt < b.maxTotalTokens
  }

  /** Admission to a batch. */
  function Admit(b: Budget, s: Episode, prompt: nat): Episode {
    if prompt > b.maxPromptTokens then s.(reason := PromptTooLong)
    else if Total(s) + prompt >= b.maxTotalTokens then s.(reason := TotalTokenBudget)
    else s
  }

  /** How much of the generated text the budget still pays for. */
  function Affordable(b: Budget, s: Episode, prompt: nat, tokens: nat): nat {
    Min(tokens, Min(Max(0, b.maxNewTokens - s.newTokens), Max(0, b.maxTotalTokens - Total(s) - prompt)))
  }

  function Charge(b: Budget, s: Episode, prompt: nat, tokens: nat): Episode {
    s.(modelCalls := s.modelCalls + 1,
       promptTokens := s.promptTokens + prompt,
       newTokens := s.newTokens + Affordable(b, s, prompt, tokens))
  }

  /** The verdict on one parsed action; `None` lets the statement run. */
  function Stop(b: Budget, s: Episode, a: Action): Option<Reason> {
    if a.tool == "" || a.sql == "" then Some(InvalidAction)
    else if s.toolCalls >= b.maxToolCalls then Some(ToolBudget)
    else if a.tool == "submit_solution" then Some(Submitted)
    else if a.tool != "execute_sql" then Some(UnknownTool)
    else if s.sqlExecutions >= b.maxSqlExecutions then Some(SqlExecutionBudget)
    else None
  }

  /** The counters and the reason after the action; the record of a running statement comes later. */
  function Dispatch(b: Budget, s: Episode, turn: nat, a: Action): Episode {
    var stop := Stop(b, s, a);
    var charged := if stop in {Some(InvalidAction), Some(ToolBudget)} then s else s.(toolCalls := s.toolCalls + 1);
    match stop
    case None => charged.(sqlExecutions := s.sqlExecutions + 1)
    case Some(reason) =>
      charged.(reason := reason, trajectory := s.trajectory + [Record(turn, a, false)],
               finalSql := if reason.Submitted? then a.sql else s.finalSql)
  }

  function Observe(s: Episode, turn: nat, a: Action): Episode {
    s.(trajectory := s.trajectory + [Record(turn, a, true)])
  }

  function Act(b: Budget, s: Episode, turn: nat, a: Action): Episode {
    var d := Dispatch(b, s, turn, a);
    if Stop(b, s, a).None? then Observe(d, turn, a) else d
  }

  /** What the tokenizer, the model and the parser answer for one episode in one round. */
  datatype Input = Input(prompt: nat, tokens: nat, action: nat -> Action)

  /** One round: admission, generation, action. A negative batch size generates nothing. */
  function Turn(b: Budget, generates: bool, s: Episode, turn: nat, x: Input): Episode {
    if s.reason != Running then s
    else if !Fits(b, s, x.prompt) then Admit(b, s, x.prompt)
    else if !generates then s.(reason := GenerationNotRun)
    else Act(b, Charge(b, s, x.prompt, x.tokens), turn, x.action(Affordable(b, s, x.prompt, x.tokens)))
  }

  // ---------------------------------------------------------------------------------
  // The episodes as objects

  class State {
    var trajectory: seq<Record>
    var finalSql: string
    var reason: Reason
    var modelCalls: nat
    var toolCalls: nat
    var sqlExecutions: nat
    var promptTokens: nat
    var newTokens: nat

    function View(): Episode
      reads this
    {
      Episode(trajectory, finalSql, reason, modelCalls, toolCalls, sqlExecutions, promptTokens, newTokens)
    }

    constructor ()
      ensures View() == FRESH
    {
      trajectory, finalSql, reason := [], "", Running;
      modelCalls, toolCalls, sqlExecutions, promptTokens, newTokens := 0, 0, 0, 0, 0;
    }

    method Enter(b: Budget, prompt: nat) returns (admitted: bool)
      modifies this
      ensures View() == Admit(b, old(View()), prompt)
      ensures admitted == Fits(b, old(View()), prompt)
      ensures admitted <==> prompt <= b.maxPromptTokens && promptTokens + newTokens + prompt < b.maxTotalTokens
      ensures View() == if admitted then old(View()) else old(View()).(reason := reason)
      ensures !admitted ==> reason == if prompt > b.maxPromptTokens then PromptTooLong else TotalTokenBudget
    {
      if prompt > b.maxPromptTokens {
        reason := PromptTooLong;
        return false;
      }
      if promptTokens + newTokens + prompt >= b.maxTotalTokens {
        reason := TotalTokenBudget;
        return false;
      }
      return true;
    }

    method Pay(b: Budget, prompt: nat, tokens: nat) returns (allowed: nat)
      modifies this
      ensures View() == Charge(b, old(View()), prompt, tokens)
      ensures allowed == Affordable(b, old(View()), prompt, tokens)
      ensures modelCalls == old(modelCalls) + 1 && promptTokens == old(promptTokens) + prompt
      ensures newTokens == old(newTokens) + allowed && allowed <= tokens
      ensures allowed > 0 ==> newTokens <= b.maxNewTokens && promptTokens + newTokens <= b.maxTotalTokens
      ensures allowed < tokens ==> newTokens >= b.maxNewTokens || promptTokens + newTokens >= b.maxTotalTokens
    {
      var remainingNew := Max(0, b.maxNewTokens - newTokens);
      var remainingTotal := Max(0, b.maxTotalTokens - (promptTokens + newTokens) - prompt);
      allowed := Min(tokens, Min(remainingNew, remainingTotal));
      modelCalls := modelCalls + 1;
      promptTokens := promptTokens + prompt;
      newTokens := newTokens + allowed;
    }

    /** The body of the action loop; true when the statement is left to run. */
    method Handle(b: Budget, turn: nat, a: Action) returns (pending: bool)
      modifies this
      ensures View() == Dispatch(b, old(View()), turn, a)
      ensures pending == Stop(b, old(View()), a).None?
    {
      var record := Record(turn, a, false);
      if a.tool == "" || a.sql == "" {
        trajectory := trajectory + [record];
        reason := InvalidAction;
        return false;
      }
      if toolCalls >= b.maxToolCalls {
        trajectory := trajectory + [record];
        reason := ToolBudget;
        return false;
      }
      toolCalls := toolCalls + 1;
      if a.tool == "submit_solution" {
        finalSql := a.sql;
        reason := Submitted;
        trajectory := trajectory + [record];
        return false;
      }
      if a.tool != "execute_sql" {
        trajectory := trajectory + [record];
        reason := UnknownTool;
        return false;
      }
      if sqlExecutions >= b.maxSqlExecutions {
        trajectory := trajectory + [record];
        reason := SqlExecutionBudget;
        return false;
      }
      sqlExecutions := sqlExecutions + 1;
      return true;
    }

    method TakeFinal(a: Action)
      modifies this
      ensures View() == Extract(old(View()), a)
    {
      finalSql := a.sql;
      reason := if finalSql != "" then Submitted else InvalidOutput;
      trajectory := trajectory + [Record(0, a, false)];
    }

    method RecordObservation(turn: nat, a: Action)
      modifies this
      ensures View() == Observe(old(View()), turn, a)
    {
      trajectory := trajectory + [Record(turn, a, true)];
    }
  }

  // ---------------------------------------------------------------------------------
  // The loops

  type Oracle = (nat, State) -> Input

  ghost predicate Distinct(states: seq<State>) {
    forall i, j | 0 <= i < j < |states| :: states[i] != states[j]
  }

  function Views(states: seq<State>): (r: seq<Episode>)
    reads states
    ensures |r| == |states| && forall i | 0 <= i < |states| :: r[i] == states[i].View()
  {
    seq(|states|, i requires 0 <= i < |states| reads states => states[i].View())
  }

  /** Positions below `n`, in order and without repetition. */
  predicate Ordered(places: seq<nat>, n: nat) {
    && (forall k | 0 <= k < |places| :: places[k] < n)
    && (forall k, m | 0 <= k < m < |places| :: places[k] < places[m])
  }

  // Each loop as a relation between the episodes before it, `v`, and after it, `w`.

  ghost predicate AdmitsAll(b: Budget, v: seq<Episode>, w: seq<Episode>, inputs: seq<Input>, admitted: seq<nat>) {
    && |w| == |v| == |inputs| && Ordered(admitted, |v|)
    && (forall i | 0 <= i < |v| :: w[i] == Admit(b, v[i], inputs[i].prompt))
    && (forall i | 0 <= i < |v| :: i in admitted <==> Fits(b, v[i], inputs[i].prompt))
  }

  ghost predicate GeneratesAll(b: Budget, v: seq<Episode>, w: seq<Episode>, inputs: seq<Input>, places: seq<nat>,
                               allowed: seq<nat>)
  {
    && |w| == |v| == |inputs| && |allowed| == |places| && Ordered(places, |v|)
    && (forall k | 0 <= k < |places| ::
          allowed[k] == Affordable(b, v[places[k]], inputs[places[k]].prompt, inputs[places[k]].tokens))
    && (forall k | 0 <= k < |places| ::
          w[places[k]] == Charge(b, v[places[k]], inputs[places[k]].prompt, inputs[places[k]].tokens))
    && (forall i | 0 <= i < |v| && i !in places :: w[i] == v[i])
  }

  function Closed(s: Episode, generated: bool): Episode {
    if !generated && s.reason.Running? then s.(reason := GenerationNotRun) else s
  }

  ghost predicate ClosesRest(v: seq<Episode>, w: seq<Episode>, places: seq<nat>) {
    && |w| == |v|
    && forall i | 0 <= i < |v| ::
         w[i] == Closed(v[i], i in places)
  }

  ghost predicate HandlesAll(b: Budget, v: seq<Episode>, w: seq<Episode>, turn: nat, places: seq<nat>,
                             actions: seq<Action>, pending: seq<nat>)
  {
    && |w| == |v| && |actions| == |places| && Ordered(places, |v|) && Ordered(pending, |places|)
    && (forall k | 0 <= k < |places| :: w[places[k]] == Dispatch(b, v[places[k]], turn, actions[k]))
    && (forall k | 0 <= k < |places| :: k in pending <==> Stop(b, v[places[k]], actions[k]).None?)
    && (forall i | 0 <= i < |v| && i !in places :: w[i] == v[i])
  }

  ghost predicate ObservesAll(v: seq<Episode>, w: seq<Episode>, turn: nat, places: seq<nat>, actions: seq<Action>,
                              pending: seq<nat>)
  {
    && |w| == |v| && |actions| == |places| && Ordered(places, |v|)
    && (forall k | 0 <= k < |places| ::
          (w[places[k]] == if k in pending then Observe(v[places[k]], turn, actions[k]) else v[places[k]]))
    && (forall i | 0 <= i < |v| && i !in places :: w[i] == v[i])
  }

  /** The admission loop. */
  method AdmitAll(states: seq<State>, b: Budget, inputs: seq<Input>) returns (admitted: seq<nat>)
    requires Distinct(states) && |inputs| == |states|
    modifies states
    ensures AdmitsAll(b, old(Views(states)), Views(states), inputs, admitted)
  {
    admitted := [];
    ghost var before := Views(states);
    for i := 0 to |states|
      invariant forall j | 0 <= j < i :: states[j].View() == Admit(b, before[j], inputs[j].prompt)
      invariant forall j | i <= j < |states| :: states[j].View() == before[j]
      invariant Ordered(admitted, i)
      invariant forall j | 0 <= j < i :: j in admitted <==> Fits(b, before[j], inputs[j].prompt)
    {
      var fits := states[i].Enter(b, inputs[i].prompt);
      if fits {
        admitted := admitted + [i];
      }
    }
  }

  /** The generation loop over batches; a negative batch size makes the range empty. */
  method GenerateAll(states: seq<State>, b: Budget, inputs: seq<Input>, admitted: seq<nat>, batchSize: int)
    returns (allowed: seq<nat>)
    requires Distinct(states) && |inputs| == |states| && batchSize != 0 && Ordered(admitted, |states|)
    modifies states
    ensures |allowed| == if batchSize > 0 then |admitted| else 0
    ensures GeneratesAll(b, old(Views(states)), Views(states), inputs, admitted[..|allowed|], allowed)
  {
    allowed := [];
    if batchSize < 0 {
      return;
    }
    ghost var before := Views(states);
    var start := 0;
    while start < |admitted|
      invariant |allowed| == if start < |admitted| then start else |admitted|
      invariant GeneratesAll(b, before, Views(states), inputs, admitted[..|allowed|], allowed)
    {
      var end := Min(start + batchSize, |admitted|);
      for k := start to end
        invariant |allowed| == k
        invariant GeneratesAll(b, before, Views(states), inputs, admitted[..k], allowed)
      {
        var i := admitted[k];
        ghost var done := Views(states);
        assert i !in admitted[..k];
        var paid := states[i].Pay(b, inputs[i].prompt, inputs[i].tokens);
        OneMoreGenerated(b, before, done, Views(states), inputs, admitted, allowed, k, paid);
        allowed := allowed + [paid];
      }
      start := start + batchSize;
    }
  }

  lemma OneMoreGenerated(b: Budget, v: seq<Episode>, w: seq<Episode>, w': seq<Episode>, inputs: seq<Input>,
                         admitted: seq<nat>, allowed: seq<nat>, k: nat, paid: nat)
    requires |v| == |w| == |w'| == |inputs| && Ordered(admitted, |v|) && k < |admitted|
    requires GeneratesAll(b, v, w, inputs, admitted[..k], allowed)
    requires paid == Affordable(b, v[admitted[k]], inputs[admitted[k]].prompt, inputs[admitted[k]].tokens)
    requires w' == w[admitted[k] := Charge(b, v[admitted[k]], inputs[admitted[k]].prompt, inputs[admitted[k]].tokens)]
    ensures GeneratesAll(b, v, w', inputs, admitted[..k + 1], allowed + [paid])
  {
    assert admitted[..k + 1] == admitted[..k] + [admitted[k]];
  }

  /** The loop that closes episodes for which nothing was generated. */
  method CloseRest(states: seq<State>, generated: seq<nat>)
    requires Distinct(states)
    modifies states
    ensures ClosesRest(old(Views(states)), Views(states), generated)
  {
    ghost var before := Views(states);
    for i := 0 to |states|
      invariant forall j | 0 <= j < i :: states[j].View() == Closed(before[j], j in generated)
      invariant forall j | i <= j < |states| :: states[j].View() == before[j]
    {
      if i !in generated && states[i].reason.Running? {
        states[i].reason := GenerationNotRun;
      }
    }
  }

  /** A loop that applies `f` to the episodes at `places` and collects where `waits` holds. */
  ghost predicate Applies(f: (Episode, Action) -> Episode, waits: (Episode, Action) -> bool, v: seq<Episode>,
                          w: seq<Episode>, places: seq<nat>, actions: seq<Action>, pending: seq<nat>)
  {
    && |w| == |v| && |actions| == |places| && Ordered(places, |v|) && Ordered(pending, |places|)
    && (forall k | 0 <= k < |places| :: w[places[k]] == f(v[places[k]], actions[k]))
    && (forall k | 0 <= k < |places| :: k in pending <==> waits(v[places[k]], actions[k]))
    && (forall i | 0 <= i < |v| && i !in places :: w[i] == v[i])
  }

  /** The action loop; what is left to run is collected. */
  method HandleAll(states: seq<State>, b: Budget, turn: nat, places: seq<nat>, actions: seq<Action>)
    returns (pending: seq<nat>)
    requires Distinct(states) && Ordered(places, |states|) && |actions| == |places|
    modifies states
    ensures HandlesAll(b, old(Views(states)), Views(states), turn, places, actions, pending)
  {
    pending := [];
    ghost var before := Views(states);
    ghost var f := (s, a) => Dispatch(b, s, turn, a);
    ghost var waiting := (s, a) => Stop(b, s, a).None?;
    assert places[..0] == [] && actions[..0] == [];
    for k := 0 to |places|
      invariant Applies(f, waiting, before, Views(states), places[..k], actions[..k], pending)
    {
      var i := places[k];
      ghost var done := Views(states);
      assert i !in places[..k];
      var waits := states[i].Handle(b, turn, actions[k]);
      AppliesOnce(f, waiting, before, done, Views(states), places, actions, pending, k);
      if waits {
        pending := pending + [k];
      }
    }
    assert places[..|places|] == places && actions[..|places|] == actions;
  }

  lemma AppliesOnce(f: (Episode, Action) -> Episode, waits: (Episode, Action) -> bool, v: seq<Episode>,
                    w: seq<Episode>, w': seq<Episode>, places: seq<nat>, actions: seq<Action>, pending: seq<nat>, k: nat)
    requires |v| == |w| == |w'| && |actions| == |places| && Ordered(places, |v|) && k < |places|
    requires Applies(f, waits, v, w, places[..k], actions[..k], pending)
    requires w' == w[places[k] := f(v[places[k]], actions[k])]
    ensures Applies(f, waits, v, w', places[..k + 1], actions[..k + 1],
                    if waits(v[places[k]], actions[k]) then pending + [k] else pending)
  {
    var p, a := places[..k], actions[..k];
    assert places[..k + 1] == p + [places[k]] && actions[..k + 1] == a + [actions[k]];
    forall m | 0 <= m < k
      ensures p[m] < places[k]
    {
      assert p[m] == places[m];
    }
    AppliesSnoc(f, waits, v, w, w', p, a, pending, places[k], actions[k]);
  }

  lemma AppliedSnoc(f: (Episode, Action) -> Episode, v: seq<Episode>, w: seq<Episode>, w': seq<Episode>,
                    p: seq<nat>, c: seq<Action>, k: nat)
    requires |v| == |w| && |c| == |p| == k + 1 && p[k] < |v| && forall m | 0 <= m < k :: p[m] < p[k]
    requires forall m | 0 <= m < k :: w[p[m]] == f(v[p[m]], c[m])
    requires w' == w[p[k] := f(v[p[k]], c[k])]
    ensures forall m | 0 <= m <= k :: w'[p[m]] == f(v[p[m]], c[m])
  {
  }

  lemma CollectedSnoc(waits: (Episode, Action) -> bool, v: seq<Episode>, p: seq<nat>, c: seq<Action>,
                      pending: seq<nat>, k: nat, r: seq<nat>)
    requires |c| == |p| == k + 1 && (forall m | 0 <= m <= k :: p[m] < |v|) && Ordered(pending, k)
    requires forall m | 0 <= m < k :: m in pending <==> waits(v[p[m]], c[m])
    requires r == if waits(v[p[k]], c[k]) then pending + [k] else pending
    ensures Ordered(r, k + 1) && forall m | 0 <= m <= k :: m in r <==> waits(v[p[m]], c[m])
  {
    PendingSnoc(pending, k, waits(v[p[k]], c[k]), r);
  }

  lemma UntouchedSnoc(v: seq<Episode>, w: seq<Episode>, w': seq<Episode>, places: seq<nat>, i: nat)
    requires |v| == |w| == |w'| && i < |v| && Ordered(places, |v|) && forall m | 0 <= m < |places| :: places[m] < i
    requires forall j | 0 <= j < |v| && j !in places :: w[j] == v[j]
    requires forall j | 0 <= j < |v| && j != i :: w'[j] == w[j]
    ensures Ordered(places + [i], |v|)
    ensures forall j | 0 <= j < |v| && j !in places + [i] :: w'[j] == v[j]
  {
    var p := places + [i];
    assert p[|places|] == i && forall m | 0 <= m < |places| :: p[m] == places[m];
    assert forall j :: j in p <==> j in places || j == i;
  }

  lemma Pushed<T>(s: seq<T>, x: T)
    ensures (s + [x])[|s|] == x && forall m | 0 <= m < |s| :: (s + [x])[m] == s[m]
  {
  }

  lemma AppliesSnoc(f: (Episode, Action) -> Episode, waits: (Episode, Action) -> bool, v: seq<Episode>,
                    w: seq<Episode>, w': seq<Episode>, places: seq<nat>, actions: seq<Action>, pending: seq<nat>,
                    i: nat, a: Action)
    requires |v| == |w| == |w'| && i < |v| && forall m | 0 <= m < |places| :: places[m] < i
    requires Applies(f, waits, v, w, places, actions, pending)
    requires w' == w[i := f(v[i], a)]
    ensures Applies(f, waits, v, w', places + [i], actions + [a], if waits(v[i], a) then pending + [|places|] else pending)
  {
    var p, c, k := places + [i], actions + [a], |places|;
    var r := if waits(v[i], a) then pending + [k] else pending;
    Pushed(places, i);
    Pushed(actions, a);
    AppliedSnoc(f, v, w, w', p, c, k);
    CollectedSnoc(waits, v, p, c, pending, k, r);
    UntouchedSnoc(v, w, w', places, i);
    assert |p| == |c| == k + 1 && Ordered(r, k + 1);
  }

  lemma PendingSnoc(pending: seq<nat>, k: nat, waits: bool, r: seq<nat>)
    requires Ordered(pending, k) && r == if waits then pending + [k] else pending
    ensures Ordered(r, k + 1) && (k in r <==> waits)
    ensures forall m | 0 <= m < k :: m in r <==> m in pending
  {
  }

  /** The statements run, and their observations are appended. */
  method ObserveAll(states: seq<State>, turn: nat, places: seq<nat>, actions: seq<Action>, pending: seq<nat>)
    requires Distinct(states) && Ordered(places, |states|) && |actions| == |places| && Ordered(pending, |places|)
    modifies states
    ensures ObservesAll(old(Views(states)), Views(states), turn, places, actions, pending)
  {
    ghost var before := Views(states);
    for n := 0 to |pending|
      invariant ObservesAll(before, Views(states), turn, places, actions, pending[..n])
    {
      var k := pending[n];
      assert k !in pending[..n];
      states[places[k]].RecordObservation(turn, actions[k]);
      assert pending[..n + 1] == pending[..n] + [k];
    }
    assert pending[..|pending|] == pending;
  }

  /** One turn of `run_react` over the active episodes. */
  method ReactTurn(states: seq<State>, b: Budget, turn: nat, inputs: seq<Input>, batchSize: int)
    requires Distinct(states) && |inputs| == |states| && batchSize != 0
    requires forall i | 0 <= i < |states| :: states[i].View().reason.Running?
    modifies states
    ensures forall i | 0 <= i < |states| ::
              states[i].View() == Turn(b, batchSize > 0, old(states[i].View()), turn, inputs[i])
  {
    ghost var v0 := Views(states);
    var admitted := AdmitAll(states, b, inputs);
    ghost var v1 := Views(states);
    var allowed := GenerateAll(states, b, inputs, admitted, batchSize);
    ghost var v2 := Views(states);
    var generated := admitted[..|allowed|];
    CloseRest(states, generated);
    ghost var v3 := Views(states);
    var actions := seq(|allowed|, k requires 0 <= k < |allowed| => inputs[admitted[k]].action(allowed[k]));
    var pending := HandleAll(states, b, turn, generated, actions);
    ghost var v4 := Views(states);
    ObserveAll(states, turn, generated, actions, pending);
    Round(b, batchSize > 0, turn, inputs, admitted, allowed, actions, pending, v0, v1, v2, v3, v4, Views(states));
  }

  /** The five loops together do to each episode what `Turn` says. */
  lemma Round(b: Budget, generates: bool, turn: nat, inputs: seq<Input>, admitted: seq<nat>, allowed: seq<nat>,
              actions: seq<Action>, pending: seq<nat>, v0: seq<Episode>, v1: seq<Episode>, v2: seq<Episode>,
              v3: seq<Episode>, v4: seq<Episode>, v5: seq<Episode>)
    requires forall i | 0 <= i < |v0| :: v0[i].reason.Running?
    requires |allowed| == if generates then |admitted| else 0
    requires AdmitsAll(b, v0, v1, inputs, admitted)
    requires GeneratesAll(b, v1, v2, inputs, admitted[..|allowed|], allowed)
    requires ClosesRest(v2, v3, admitted[..|allowed|])
    requires HandlesAll(b, v3, v4, turn, admitted[..|allowed|], actions, pending)
    requires ObservesAll(v4, v5, turn, admitted[..|allowed|], actions, pending)
    requires forall k | 0 <= k < |allowed| :: actions[k] == inputs[admitted[k]].action(allowed[k])
    ensures forall i | 0 <= i < |v0| :: v5[i] == Turn(b, generates, v0[i], turn, inputs[i])
  {
    forall i | 0 <= i < |v0|
      ensures v5[i] == Turn(b, generates, v0[i], turn, inputs[i])
    {
      RoundOfOne(b, generates, turn, inputs, admitted, allowed, actions, pending, v0, v1, v2, v3, v4, v5, i);
    }
  }

  lemma RoundOfOne(b: Budget, generates: bool, turn: nat, inputs: seq<Input>, admitted: seq<nat>, allowed: seq<nat>,
                   actions: seq<Action>, pending: seq<nat>, v0: seq<Episode>, v1: seq<Episode>, v2: seq<Episode>,
                   v3: seq<Episode>, v4: seq<Episode>, v5: seq<Episode>, i: nat)
    requires i < |v0| && v0[i].reason.Running? && |allowed| == if generates then |admitted| else 0
    requires AdmitsAll(b, v0, v1, inputs, admitted)
    requires GeneratesAll(b, v1, v2, inputs, admitted[..|allowed|], allowed)
    requires ClosesRest(v2, v3, admitted[..|allowed|])
    requires HandlesAll(b, v3, v4, turn, admitted[..|allowed|], actions, pending)
    requires ObservesAll(v4, v5, turn, admitted[..|allowed|], actions, pending)
    requires forall k | 0 <= k < |allowed| :: actions[k] == inputs[admitted[k]].action(allowed[k])
    ensures v5[i] == Turn(b, generates, v0[i], turn, inputs[i])
  {
    var generated := admitted[..|allowed|];
    if i in generated {
      var k :| 0 <= k < |generated| && generated[k] == i;
      assert i in admitted;
    } else {
      if generates { assert generated == admitted; }
    }
  }

  /** An episode after `n` rounds. */
  function Play(b: Budget, generates: bool, oracle: Oracle, state: State, n: nat): Episode {
    if n == 0 then FRESH else
    Turn(b, generates, Play(b, generates, oracle, state, n - 1), n - 1, oracle(n - 1, state))
  }

  function Finish(s: Episode): Episode {
    if s.reason.Running? then s.(reason := TurnLimit) else s
  }

  lemma {:induction false} Stopped(b: Budget, generates: bool, oracle: Oracle, state: State, n: nat, m: nat)
    requires n <= m && !Play(b, generates, oracle, state, n).reason.Running?
    ensures Play(b, generates, oracle, state, m) == Play(b, generates, oracle, state, n)
  {
    if n < m { Stopped(b, generates, oracle, state, n, m - 1); }
  }

  /** The positions of the running episodes, and the episodes themselves. */
  method ActiveOf(states: seq<State>) returns (places: seq<nat>, active: seq<State>)
    requires Distinct(states)
    ensures Ordered(places, |states|) && |active| == |places| && Distinct(active)
    ensures forall k | 0 <= k < |places| :: active[k] == states[places[k]] && active[k].View().reason.Running?
    ensures forall i | 0 <= i < |states| :: i in places <==> states[i].View().reason.Running?
  {
    places, active := [], [];
    for i := 0 to |states|
      invariant Ordered(places, i) && |active| == |places|
      invariant forall k | 0 <= k < |places| :: active[k] == states[places[k]] && active[k].View().reason.Running?
      invariant forall j | 0 <= j < i :: j in places <==> states[j].View().reason.Running?
    {
      if states[i].reason.Running? {
        places, active := places + [i], active + [states[i]];
      }
    }
  }

  ghost predicate TurnsAll(b: Budget, generates: bool, turn: nat, oracle: Oracle, states: seq<State>,
                           v: seq<Episode>, w: seq<Episode>)
  {
    && |w| == |v| == |states|
    && forall i | 0 <= i < |states| :: w[i] == Turn(b, generates, v[i], turn, oracle(turn, states[i]))
  }

  /** All episodes after `n` turns. */
  ghost function Played(b: Budget, generates: bool, oracle: Oracle, states: seq<State>, n: nat): (v: seq<Episode>)
    ensures |v| == |states| && forall i | 0 <= i < |states| :: v[i] == Play(b, generates, oracle, states[i], n)
  {
    seq(|states|, i requires 0 <= i < |states| => Play(b, generates, oracle, states[i], n))
  }

  ghost predicate PlaysAll(b: Budget, generates: bool, oracle: Oracle, states: seq<State>, n: nat, v: seq<Episode>) {
    v == Played(b, generates, oracle, states, n)
  }

  lemma PlaysOn(b: Budget, generates: bool, oracle: Oracle, states: seq<State>, n: nat, v: seq<Episode>, w: seq<Episode>)
    requires PlaysAll(b, generates, oracle, states, n, v) && TurnsAll(b, generates, n, oracle, states, v, w)
    ensures PlaysAll(b, generates, oracle, states, n + 1, w)
  {
    forall i | 0 <= i < |states|
      ensures w[i] == Play(b, generates, oracle, states[i], n + 1)
    {
      assert v[i] == Play(b, generates, oracle, states[i], n);
    }
  }

  lemma PlaysStopped(b: Budget, generates: bool, oracle: Oracle, states: seq<State>, n: nat, m: nat, v: seq<Episode>)
    requires PlaysAll(b, generates, oracle, states, n, v) && n <= m
    requires forall i | 0 <= i < |v| :: !v[i].reason.Running?
    ensures PlaysAll(b, generates, oracle, states, m, v)
  {
    forall i | 0 <= i < |states|
      ensures v[i] == Play(b, generates, oracle, states[i], m)
    {
      Stopped(b, generates, oracle, states[i], n, m);
    }
  }

  /** One turn over all episodes: the active ones move, the others stay. */
  method ReactRound(states: seq<State>, b: Budget, turn: nat, oracle: Oracle, batchSize: int) returns (worked: bool)
    requires Distinct(states) && (batchSize != 0 || states == [])
    modifies states
    ensures TurnsAll(b, batchSize > 0, turn, oracle, states, old(Views(states)), Views(states))
    ensures !worked ==> forall i | 0 <= i < |states| :: !Views(states)[i].reason.Running?
  {
    ghost var before := Views(states);
    var places, active := ActiveOf(states);
    if active == [] {
      return false;
    }
    assert active[0] == states[places[0]] && places[0] < |states|;
    var inputs := seq(|active|, k requires 0 <= k < |active| => oracle(turn, active[k]));
    assert forall k | 0 <= k < |active| :: active[k] in states && active[k].View() == before[places[k]];
    ReactTurn(active, b, turn, inputs, batchSize);
    forall i | 0 <= i < |states|
      ensures Views(states)[i] == Turn(b, batchSize > 0, before[i], turn, oracle(turn, states[i]))
    {
      if i in places {
        var k :| 0 <= k < |places| && places[k] == i;
        assert active[k] == states[i];
      } else {
        assert forall k | 0 <= k < |active| :: active[k] != states[i];
      }
    }
    return true;
  }

  /** Whoever still runs has reached the turn limit. */
  method FinishAll(states: seq<State>)
    requires Distinct(states)
    modifies states
    ensures forall i | 0 <= i < |states| :: states[i].View() == Finish(old(states[i].View()))
  {
    ghost var before := Views(states);
    for i := 0 to |states|
      invariant forall j | 0 <= j < i :: states[j].View() == Finish(before[j])
      invariant forall j | i <= j < |states| :: states[j].View() == before[j]
    {
      if states[i].reason.Running? {
        states[i].reason := TurnLimit;
      }
    }
  }

  method PlayOne(states: seq<State>, b: Budget, turn: nat, oracle: Oracle, batchSize: int) returns (worked: bool)
    requires Distinct(states) && (batchSize == 0 ==> |states| == 0) && turn < b.maxModelCalls
    requires PlaysAll(b, batchSize > 0, oracle, states, turn, Views(states))
    modifies states
    ensures PlaysAll(b, batchSize > 0, oracle, states, if worked then turn + 1 else b.maxModelCalls, Views(states))
  {
    ghost var before := Views(states);
    worked := ReactRound(states, b, turn, oracle, batchSize);
    PlaysOn(b, batchSize > 0, oracle, states, turn, before, Views(states));
    if !worked {
      PlaysStopped(b, batchSize > 0, oracle, states, turn + 1, b.maxModelCalls, Views(states));
    }
  }

  /** All turns, until no episode is active. */
  method PlayAll(states: seq<State>, b: Budget, oracle: Oracle, batchSize: int)
    requires Distinct(states) && (batchSize == 0 && b.maxModelCalls > 0 ==> |states| == 0)
    requires PlaysAll(b, batchSize > 0, oracle, states, 0, Views(states))
    modifies states
    ensures PlaysAll(b, batchSize > 0, oracle, states, b.maxModelCalls, Views(states))
  {
    var turn, worked := 0, true;
    while turn < b.maxModelCalls && worked
      invariant turn <= b.maxModelCalls
      invariant PlaysAll(b, batchSize > 0, oracle, states, if worked then turn else b.maxModelCalls, Views(states))
      decreases b.maxModelCalls - turn
    {
      worked := PlayOne(states, b, turn, oracle, batchSize);
      turn := turn + 1;
    }
  }

  /** `run_react`; a batch size of zero raises at the first generation. */
  method RunReact(states: seq<State>, b: Budget, oracle: Oracle, batchSize: int) returns (ok: bool)
    requires Distinct(states) && forall i | 0 <= i < |states| :: states[i].View() == FRESH
    modifies states
    ensures ok <==> batchSize != 0 || states == [] || b.maxModelCalls == 0
    ensures ok ==> forall i | 0 <= i < |states| ::
              states[i].View() == Finish(Play(b, batchSize > 0, oracle, states[i], b.maxModelCalls))
  {
    if batchSize == 0 && states != [] && b.maxModelCalls > 0 {
      return false;
    }
    PlayAll(states, b, oracle, batchSize);
    FinishAll(states);
    return true;
  }

  /** What a direct run does to one episode. */
  function Direct(b: Budget, generates: bool, s: Episode, x: Input): Episode {
    if !Fits(b, s, x.prompt) then Admit(b, s, x.prompt)
    else if !generates then s.(reason := GenerationNotRun)
    else
      var a := x.action(Affordable(b, s, x.prompt, x.tokens));
      Extract(Charge(b, s, x.prompt, x.tokens), a)
  }

  function Extract(s: Episode, a: Action): Episode {
    s.(finalSql := a.sql, reason := if a.sql != "" then Submitted else InvalidOutput,
       trajectory := s.trajectory + [Record(0, a, false)])
  }

  ghost predicate ExtractsAll(v: seq<Episode>, w: seq<Episode>, places: seq<nat>, actions: seq<Action>) {
    && |w| == |v| && |actions| == |places| && Ordered(places, |v|)
    && (forall k | 0 <= k < |places| :: w[places[k]] == Extract(v[places[k]], actions[k]))
    && (forall i | 0 <= i < |v| && i !in places :: w[i] == v[i])
  }

  /** The loop that takes the final statement out of each response. */
  method ExtractAll(states: seq<State>, places: seq<nat>, actions: seq<Action>)
    requires Distinct(states) && Ordered(places, |states|) && |actions| == |places|
    modifies states
    ensures ExtractsAll(old(Views(states)), Views(states), places, actions)
  {
    ghost var before := Views(states);
    ghost var f := (s, a) => Extract(s, a);
    ghost var never := (s: Episode, a: Action) => false;
    assert places[..0] == [] && actions[..0] == [];
    for k := 0 to |places|
      invariant Applies(f, never, before, Views(states), places[..k], actions[..k], [])
    {
      var s := states[places[k]];
      ghost var done := Views(states);
      assert places[k] !in places[..k];
      s.TakeFinal(actions[k]);
      AppliesOnce(f, never, before, done, Views(states), places, actions, [], k);
    }
    assert places[..|places|] == places && actions[..|places|] == actions;
  }

  /** `run_direct`. */
  method RunDirect(states: seq<State>, b: Budget, inputs: seq<Input>, batchSize: int) returns (ok: bool)
    requires Distinct(states) && |inputs| == |states| && forall i | 0 <= i < |states| :: states[i].View() == FRESH
    modifies states
    ensures ok <==> batchSize != 0
    ensures ok ==> forall i | 0 <= i < |states| :: states[i].View() == Direct(b, batchSize > 0, FRESH, inputs[i])
  {
    if batchSize == 0 {
      return false;
    }
    ghost var v0 := Views(states);
    var admitted := AdmitAll(states, b, inputs);
    ghost var v1 := Views(states);
    var allowed := GenerateAll(states, b, inputs, admitted, batchSize);
    ghost var v2 := Views(states);
    var generated := admitted[..|allowed|];
    var actions := seq(|allowed|, k requires 0 <= k < |allowed| => inputs[admitted[k]].action(allowed[k]));
    ExtractAll(states, generated, actions);
    ghost var v3 := Views(states);
    CloseRest(states, []);
    DirectRound(b, batchSize > 0, inputs, admitted, allowed, actions, v0, v1, v2, v3, Views(states));
    return true;
  }

  lemma DirectRound(b: Budget, generates: bool, inputs: seq<Input>, admitted: seq<nat>, allowed: seq<nat>,
                    actions: seq<Action>, v0: seq<Episode>, v1: seq<Episode>, v2: seq<Episode>, v3: seq<Episode>,
                    v4: seq<Episode>)
    requires forall i | 0 <= i < |v0| :: v0[i] == FRESH
    requires |allowed| == if generates then |admitted| else 0
    requires AdmitsAll(b, v0, v1, inputs, admitted)
    requires GeneratesAll(b, v1, v2, inputs, admitted[..|allowed|], allowed)
    requires ExtractsAll(v2, v3, admitted[..|allowed|], actions)
    requires ClosesRest(v3, v4, [])
    requires forall k | 0 <= k < |allowed| :: actions[k] == inputs[admitted[k]].action(allowed[k])
    ensures forall i | 0 <= i < |v0| :: v4[i] == Direct(b, generates, FRESH, inputs[i])
  {
    forall i | 0 <= i < |v0|
      ensures v4[i] == Direct(b, generates, FRESH, inputs[i])
    {
      DirectOne(b, generates, inputs, admitted, allowed, actions, v0, v1, v2, v3, v4, i);
    }
  }

  lemma DirectOne(b: Budget, generates: bool, inputs: seq<Input>, admitted: seq<nat>, allowed: seq<nat>,
                  actions: seq<Action>, v0: seq<Episode>, v1: seq<Episode>, v2: seq<Episode>, v3: seq<Episode>,
                  v4: seq<Episode>, i: nat)
    requires i < |v0| && v0[i].reason.Running? && |allowed| == if generates then |admitted| else 0
    requires AdmitsAll(b, v0, v1, inputs, admitted)
    requires GeneratesAll(b, v1, v2, inputs, admitted[..|allowed|], allowed)
    requires ExtractsAll(v2, v3, admitted[..|allowed|], actions)
    requires ClosesRest(v3, v4, [])
    requires forall k | 0 <= k < |allowed| :: actions[k] == inputs[admitted[k]].action(allowed[k])
    ensures v4[i] == Direct(b, generates, v0[i], inputs[i])
  {
    var generated := admitted[..|allowed|];
    if i in generated {
      var k :| 0 <= k < |generated| && generated[k] == i;
      assert i in admitted;
    } else {
      if generates { assert generated == admitted; }
    }
  }

  // ---------------------------------------------------------------------------------
  // Budget safety

  /** What holds of an episode after `n` rounds. */
  predicate Sound(b: Budget, s: Episode, n: nat) {
    && s.toolCalls <= b.maxToolCalls && s.sqlExecutions <= b.maxSqlExecutions
    && s.newTokens <= b.maxNewTokens && Total(s) <= b.maxTotalTokens
    && s.sqlExecutions <= s.toolCalls <= s.modelCalls == |s.trajectory| <= n
    && (s.reason.Submitted? <==> s.finalSql != "")
    && (s.reason.Running? ==> s.sqlExecutions == n)
    && (s.reason.ToolBudget? ==> s.toolCalls == b.maxToolCalls < s.modelCalls)
    && (s.reason.SqlExecutionBudget? ==> s.sqlExecutions == b.maxSqlExecutions < s.modelCalls)
    && (!s.reason.Running? ==> s.modelCalls <= s.sqlExecutions + 1)
    && (forall k | 0 <= k < |s.trajectory| :: s.trajectory[k].turn == k)
  }

  lemma ChargeIsAffordable(b: Budget, s: Episode, prompt: nat, tokens: nat)
    requires s.newTokens <= b.maxNewTokens && Fits(b, s, prompt)
    ensures var c := Charge(b, s, prompt, tokens);
            c.newTokens <= b.maxNewTokens && Total(c) <= b.maxTotalTokens
  {
  }

  /** Sound, and stopped by nothing that only ends a run from outside. */
  ghost predicate Sane(b: Budget, s: Episode, turn: nat) {
    Sound(b, s, turn) && !s.reason.TurnLimit? && !s.reason.InvalidOutput?
  }

  lemma TurnIsSound(b: Budget, generates: bool, s: Episode, turn: nat, x: Input)
    requires Sane(b, s, turn)
    ensures Sane(b, Turn(b, generates, s, turn, x), turn + 1)
  {
    if s.reason.Running? && Fits(b, s, x.prompt) && generates {
      ChargeIsAffordable(b, s, x.prompt, x.tokens);
      var c := Charge(b, s, x.prompt, x.tokens);
      var a := x.action(Affordable(b, s, x.prompt, x.tokens));
      ActIsSound(b, c, turn, a);
    }
  }

  lemma NextIsSound(b: Budget, generates: bool, s: Episode, turn: nat, x: Input, r: Episode)
    requires Sane(b, s, turn) && r == Turn(b, generates, s, turn, x)
    ensures Sane(b, r, turn + 1)
  {
    TurnIsSound(b, generates, s, turn, x);
  }

  lemma ActIsSound(b: Budget, c: Episode, turn: nat, a: Action)
    requires Sound(b, c.(modelCalls := turn), turn) && c.reason.Running? && c.modelCalls == turn + 1
    ensures Sound(b, Act(b, c, turn, a), turn + 1)
    ensures var r := Act(b, c, turn, a).reason; !r.TurnLimit? && !r.InvalidOutput?
  {
    var d := Act(b, c, turn, a);
    assert d.trajectory[..turn] == c.trajectory && |d.trajectory| == turn + 1;
    assert forall k | 0 <= k < turn :: d.trajectory[k] == c.trajectory[k];
  }

  lemma {:induction false} PlayIsSound(b: Budget, generates: bool, oracle: Oracle, state: State, n: nat)
    ensures Sane(b, Play(b, generates, oracle, state, n), n)
  {
    if n > 0 {
      PlayIsSound(b, generates, oracle, state, n - 1);
      NextIsSound(b, generates, Play(b, generates, oracle, state, n - 1), n - 1, oracle(n - 1, state),
                  Play(b, generates, oracle, state, n));
    }
  }

  /**
   Whatever the model, the parser and the tokenizer answer: an episode that `run_react` leaves is
   within the budget the evaluator checks, has stopped, is submitted exactly when it has a
   statement, and has one record for every model call.
   */
  lemma ReactStaysWithinBudget(b: Budget, generates: bool, oracle: Oracle, state: State)
    ensures var s := Finish(Play(b, generates, oracle, state, b.maxModelCalls));
            && s.modelCalls <= b.maxModelCalls && s.toolCalls <= b.maxToolCalls
            && s.sqlExecutions <= b.maxSqlExecutions && s.newTokens <= b.maxNewTokens
            && s.promptTokens + s.newTokens <= b.maxTotalTokens
            && !s.reason.Running?
            && (s.reason.Submitted? <==> s.finalSql != "")
            && |s.trajectory| == s.modelCalls && s.sqlExecutions <= s.toolCalls <= s.modelCalls
  {
    PlayIsSound(b, generates, oracle, state, b.maxModelCalls);
  }

  /** Which limits can end an episode: a running episode has executed one statement in every turn. */
  lemma LimitsReached(b: Budget, generates: bool, oracle: Oracle, state: State)
    ensures var s := Finish(Play(b, generates, oracle, state, b.maxModelCalls));
            && (s.reason.TurnLimit? ==> b.maxModelCalls <= b.maxSqlExecutions && b.maxModelCalls <= b.maxToolCalls)
            && (s.reason.ToolBudget? ==> b.maxToolCalls < b.maxModelCalls && b.maxToolCalls <= b.maxSqlExecutions)
            && (s.reason.SqlExecutionBudget? ==> b.maxSqlExecutions < b.maxModelCalls)
            && s.modelCalls <= b.maxSqlExecutions + 1
  {
    PlayIsSound(b, generates, oracle, state, b.maxModelCalls);
  }

  /**
   Under the shipped numbers neither the turn limit nor the tool budget ever ends an episode, and
   none makes its fifth model call: three executions are used up first.
   */
  lemma DefaultLimits(generates: bool, oracle: Oracle, state: State)
    ensures var s := Finish(Play(DEFAULT, generates, oracle, state, DEFAULT.maxModelCalls));
            !s.reason.TurnLimit? && !s.reason.ToolBudget? && s.modelCalls <= 4
  {
    LimitsReached(DEFAULT, generates, oracle, state);
  }

  lemma ExtractFacts(b: Budget, c: Episode, a: Action)
    requires c.trajectory == [] && c.modelCalls == 1 && c.toolCalls == c.sqlExecutions == 0
    requires c.newTokens <= b.maxNewTokens && Total(c) <= b.maxTotalTokens
    ensures var s := Extract(c, a);
            && !s.reason.Running? && (s.reason.Submitted? <==> s.finalSql != "")
            && |s.trajectory| == s.modelCalls == 1
            && s.toolCalls == s.sqlExecutions == 0
            && s.newTokens <= b.maxNewTokens && s.promptTokens + s.newTokens <= b.maxTotalTokens
  {
  }

  /** A direct run makes at most one call, and is within every budget that allows one. */
  lemma DirectStaysWithinBudget(b: Budget, generates: bool, x: Input)
    ensures var s := Direct(b, generates, FRESH, x);
            && !s.reason.Running? && (s.reason.Submitted? <==> s.finalSql != "")
            && |s.trajectory| == s.modelCalls <= 1
            && s.toolCalls == s.sqlExecutions == 0
            && s.newTokens <= b.maxNewTokens && s.promptTokens + s.newTokens <= b.maxTotalTokens
  {
    if Fits(b, FRESH, x.prompt) && generates {
      ChargeIsAffordable(b, FRESH, x.prompt, x.tokens);
      ExtractFacts(b, Charge(b, FRESH, x.prompt, x.tokens), x.action(Affordable(b, FRESH, x.prompt, x.tokens)));
    } else {
      var s := Direct(b, generates, FRESH, x);
      assert s.(reason := Running) == FRESH;
    }
  }
}
