/** The same mask computed from a chat transcript instead of the event log. */
module ChatMask {
  import opened Prelude
  import opened StatePolicy
  import opened RecoveryScan
  import opened MaskMeaning
  import opened ToolMask

  /** A chat message, as far as the selector looks at it. */
  datatype Message =
    | Assistant(calls: seq<Tool>)
    | ToolReply(observation: Observation)
    | Text

  /** The one named call of an assistant message. */
  function MessageToolName(m: Message): Option<Tool> {
    if m.Assistant? && |m.calls| == 1 && m.calls[0] != Other("") then Some(m.calls[0]) else None
  }

  datatype Collection = Collection(completed: seq<Completed>, pending: Option<Tool>)

  /** A tool reply completes the pending call; later assistant messages replace it. */
  function Collect(messages: seq<Message>): Collection {
    if messages == [] then Collection([], None) else
    var k := |messages| - 1;
    var c := Collect(messages[..k]);
    match messages[k]
    case Assistant(_) => c.(pending := MessageToolName(messages[k]))
    case ToolReply(o) =>
      if c.pending.Some? then Collection(c.completed + [Completed(k, c.pending.value, o)], None) else c
    case Text => c
  }

  function NamesOf(schemas: seq<Tool>): set<Tool> {
    set s | s in schemas
  }

  /** The schemas whose name is available, in their given order. */
  function Keep(schemas: seq<Tool>, available: set<Tool>): seq<Tool> {
    if schemas == [] then [] else
    var k := |schemas| - 1;
    Keep(schemas[..k], available) + if schemas[k] in available then [schemas[k]] else []
  }

  /** Keeping is done schema by schema. */
  lemma {:induction false} KeepConcat(before: seq<Tool>, after: seq<Tool>, available: set<Tool>)
    ensures Keep(before + after, available) == Keep(before, available) + Keep(after, available)
  {
    if after == [] {
      assert before + after == before;
    } else {
      var k := |after| - 1;
      KeepConcat(before, after[..k], available);
      assert (before + after)[..|before| + k] == before + after[..k];
      Regroup(Keep(before, available), Keep(after[..k], available), if after[k] in available then [after[k]] else []);
    }
  }

  lemma KeepOne(schema: Tool, available: set<Tool>)
    ensures Keep([schema], available) == if schema in available then [schema] else []
  {
    assert [schema][..0] == [];
  }

  lemma {:induction false} KeepNames(schemas: seq<Tool>, available: set<Tool>)
    ensures NamesOf(Keep(schemas, available)) == NamesOf(schemas) * available
  {
    if schemas != [] {
      var k := |schemas| - 1;
      KeepNames(schemas[..k], available);
      assert schemas == schemas[..k] + [schemas[k]];
      NamesSnoc(schemas[..k], schemas[k]);
      NamesSnoc(Keep(schemas[..k], available), schemas[k]);
      if schemas[k] !in available { assert Keep(schemas, available) == Keep(schemas[..k], available); }
    }
  }

  lemma NamesSnoc(schemas: seq<Tool>, last: Tool)
    ensures NamesOf(schemas + [last]) == NamesOf(schemas) + {last}
  {
    assert forall s :: s in schemas + [last] <==> s in schemas || s == last;
  }

  lemma KeptMask(log: seq<Entry>, schemas: seq<Tool>, mode: Mode)
    requires !mode.executionOnly
    ensures IsMask(NamesOf(Keep(schemas, Allowed(Track(log), NamesOf(schemas), mode))), log, log, NamesOf(schemas), mode)
  {
    var allowed := Allowed(Track(log), NamesOf(schemas), mode);
    AllowedMeans(log, log, NamesOf(schemas), mode);
    KeepNames(schemas, allowed);
    assert NamesOf(schemas) * allowed == allowed;
  }

  lemma {:induction false} CollectOrdered(messages: seq<Message>)
    ensures var es := Collect(messages).completed;
            Increasing(es) && NonNegative(es) && Below(es, |messages|)
  {
    if messages != [] { CollectOrdered(messages[..|messages| - 1]); }
  }

  lemma ScansOnTriples(es: seq<Completed>)
    requires Increasing(es) && NonNegative(es)
    ensures var t := Track(EntriesOf(es));
            && CalledOneShot(es) == t.called <= ONE_SHOT_TOOLS
            && RequiredRecoveryAction(es) == RequiredBy(t.phase)
            && HasValidatedExecution(es) == t.validated
            && (LastAsk(es) >= 0 && !FollowedUp(es, LastAsk(es))) == t.awaiting
  {
    CalledIsTracked(es);
    CalledAreOneShot(EntriesOf(es));
    ScanIsAutomaton(es);
    ValidatedIsTracked(es);
    AwaitingIsTracked(es);
  }

  /** Message `k` answers the one named call of message `i`: a tool reply with nothing but text between them. */
  predicate Answers(messages: seq<Message>, i: int, k: int) {
    && 0 <= i < k < |messages| && messages[k].ToolReply?
    && messages[i].Assistant? && |messages[i].calls| == 1 && messages[i].calls[0] != Other("")
    && forall j | i < j < k :: messages[j] == Text
  }

  /** An unanswered call of message `i`, with nothing but text or a reply to it after it. */
  predicate Pending(messages: seq<Message>, i: int, n: nat)
    requires n <= |messages|
  {
    && 0 <= i < n && messages[i].Assistant? && |messages[i].calls| == 1 && messages[i].calls[0] != Other("")
    && forall j | i < j < n :: messages[j] == Text
  }

  lemma PendingNext(messages: seq<Message>, i: int, n: nat)
    requires n < |messages|
    ensures Pending(messages, i, n + 1) <==>
            if messages[n].Assistant? then i == n && MessageToolName(messages[n]).Some?
            else messages[n] == Text && Pending(messages, i, n)
  {
    if Pending(messages, i, n + 1) && i < n { assert messages[n] == Text; }
  }

  /** What has been collected from the first `n` messages: exactly the replies that answer a call. */
  ghost predicate Collected(messages: seq<Message>, n: nat, c: Collection)
    requires n <= |messages|
  {
    && (forall x | x in c.completed ::
          exists i | 0 <= i < x.index < n :: Answers(messages, i, x.index) &&
            x == Completed(x.index, messages[i].calls[0], messages[x.index].observation))
    && (forall i, k | 0 <= i < k < n && Answers(messages, i, k) ::
          Completed(k, messages[i].calls[0], messages[k].observation) in c.completed)
    && (forall i | Pending(messages, i, n) :: c.pending == Some(messages[i].calls[0]))
    && (c.pending.Some? ==> exists i :: Pending(messages, i, n))
  }

  lemma {:induction false} CollectExactly(messages: seq<Message>, n: nat)
    requires n <= |messages|
    ensures Collected(messages, n, Collect(messages[..n]))
  {
    if n > 0 {
      CollectExactly(messages, n - 1);
      assert messages[..n][..n - 1] == messages[..n - 1];
      CollectedNext(messages, n - 1, Collect(messages[..n - 1]), Collect(messages[..n]));
    }
  }

  lemma CollectedNext(messages: seq<Message>, n: nat, c: Collection, c': Collection)
    requires n < |messages| && Collected(messages, n, c)
    requires c' == match messages[n]
                   case Assistant(_) => c.(pending := MessageToolName(messages[n]))
                   case ToolReply(o) =>
                     if c.pending.Some? then Collection(c.completed + [Completed(n, c.pending.value, o)], None) else c
                   case Text => c
    ensures Collected(messages, n + 1, c')
  {
    forall i
      ensures Pending(messages, i, n + 1) <==>
              if messages[n].Assistant? then i == n && MessageToolName(messages[n]).Some?
              else messages[n] == Text && Pending(messages, i, n)
    {
      PendingNext(messages, i, n);
    }
    forall i | Answers(messages, i, n)
      ensures messages[n].ToolReply? && c.pending == Some(messages[i].calls[0])
    {
      assert Pending(messages, i, n);
    }
  }

  /** `select_dynamic_tool_schemas`: the transcript selector keeps the mask of the answered calls. */
  method SelectDynamicToolSchemas(messages: seq<Message>, schemas: seq<Tool>, knowledgeFirst: bool)
    returns (selected: seq<Tool>)
    ensures var log := EntriesOf(Collect(messages).completed);
            IsMask(NamesOf(selected), log, log, NamesOf(schemas), Mode(knowledgeFirst, false))
    ensures selected == Keep(schemas, Allowed(Track(EntriesOf(Collect(messages).completed)),
                                              NamesOf(schemas), Mode(knowledgeFirst, false)))
  {
    var completed: seq<Completed> := [];
    var pending: Option<Tool> := None;
    for index := 0 to |messages|
      invariant Collect(messages[..index]) == Collection(completed, pending)
    {
      var message := messages[index];
      assert messages[..index + 1][..index] == messages[..index];
      if message.Assistant? {
        pending := MessageToolName(message);
      } else if message.ToolReply? && pending.Some? {
        completed := completed + [Completed(index, pending.value, message.observation)];
        pending := None;
      }
    }
    assert messages[..|messages|] == messages;
    CollectOrdered(messages);
    ScansOnTriples(completed);
    KeptMask(EntriesOf(completed), schemas, Mode(knowledgeFirst, false));
    var names := NamesOf(schemas);
    var available := names;
    available := available - CalledOneShot(completed);
    var required := RequiredRecoveryAction(completed);
    if required.Some? && required.value in names {
      return Keep(schemas, {required.value});
    }
    if HasValidatedExecution(completed) && SubmitSolution in names {
      return Keep(schemas, {SubmitSolution});
    }
    var ask := LastAsk(completed);
    if ask >= 0 && !FollowedUp(completed, ask) {
      ClarifyStaysInside(available, knowledgeFirst);
      available := available * PostClarificationTools(available, knowledgeFirst);
    }
    return Keep(schemas, available);
  }

  /** What else an episode's transcript holds around one call: messages before it, and text before its reply. */
  datatype Surroundings = Surroundings(before: seq<Message>, between: seq<Message>)

  /** A message that calls no tool; a reply counts only as the answer to a call. */
  predicate CallsNothing(m: Message) {
    MessageToolName(m).None?
  }

  predicate QuietAround(s: Surroundings) {
    (forall m | m in s.before :: CallsNothing(m)) && (forall m | m in s.between :: m == Text)
  }

  /** The transcript of an episode: around every call and its reply anything that calls no tool. */
  function Render(events: seq<Event>, around: seq<Surroundings>): seq<Message>
    requires |around| == |events|
  {
    if events == [] then [] else
    var k := |events| - 1;
    Render(events[..k], around[..k]) + around[k].before + [Assistant([events[k].tool])]
    + around[k].between + [ToolReply(events[k].observation)]
  }

  lemma CollectSnoc(messages: seq<Message>, m: Message)
    ensures var c := Collect(messages);
            Collect(messages + [m]) ==
            match m
            case Assistant(_) => c.(pending := MessageToolName(m))
            case ToolReply(o) =>
              if c.pending.Some? then Collection(c.completed + [Completed(|messages|, c.pending.value, o)], None) else c
            case Text => c
  {
    assert (messages + [m])[..|messages|] == messages;
  }

  lemma {:induction false} QuietCollects(messages: seq<Message>, more: seq<Message>)
    requires Collect(messages).pending == None && forall m | m in more :: CallsNothing(m)
    ensures Collect(messages + more) == Collect(messages)
  {
    if more == [] {
      assert messages + more == messages;
    } else {
      var k := |more| - 1;
      assert more[k] in more && forall m | m in more[..k] :: m in more;
      QuietCollects(messages, more[..k]);
      assert messages + more == (messages + more[..k]) + [more[k]];
      CollectSnoc(messages + more[..k], more[k]);
    }
  }

  lemma {:induction false} TextCollects(messages: seq<Message>, more: seq<Message>)
    requires forall m | m in more :: m == Text
    ensures Collect(messages + more) == Collect(messages)
  {
    if more == [] {
      assert messages + more == messages;
    } else {
      var k := |more| - 1;
      assert more[k] in more && forall m | m in more[..k] :: m in more;
      TextCollects(messages, more[..k]);
      assert messages + more == (messages + more[..k]) + [more[k]];
      CollectSnoc(messages + more[..k], more[k]);
    }
  }

  /** One call and its reply are collected whatever stands around them. */
  lemma CallCollects(past: seq<Message>, s: Surroundings, e: Event) returns (index: nat)
    requires Collect(past).pending == None && QuietAround(s) && e.tool != Other("")
    ensures Collect(past + s.before + [Assistant([e.tool])] + s.between + [ToolReply(e.observation)]) ==
            Collection(Collect(past).completed + [Completed(index, e.tool, e.observation)], None)
  {
    QuietCollects(past, s.before);
    CollectSnoc(past + s.before, Assistant([e.tool]));
    TextCollects(past + s.before + [Assistant([e.tool])], s.between);
    index := |past + s.before + [Assistant([e.tool])] + s.between|;
    CollectSnoc(past + s.before + [Assistant([e.tool])] + s.between, ToolReply(e.observation));
  }

  lemma {:induction false} RenderCollects(events: seq<Event>, around: seq<Surroundings>)
    requires |around| == |events| && forall i | 0 <= i < |around| :: QuietAround(around[i])
    requires forall i | 0 <= i < |events| :: events[i].tool != Other("")
    ensures var c := Collect(Render(events, around));
            EntriesOf(c.completed) == Log(events) && c.pending == None
  {
    if events != [] {
      var k := |events| - 1;
      var past, e := Render(events[..k], around[..k]), events[k];
      RenderCollects(events[..k], around[..k]);
      var completed := Collect(past).completed;
      var index := CallCollects(past, around[k], e);
      assert EntriesOf(completed + [Completed(index, e.tool, e.observation)]) ==
             EntriesOf(completed) + [Entry(e.tool, e.observation)];
      assert Log(events) == Log(events[..k]) + [Entry(e.tool, e.observation)];
    } else {
      assert EntriesOf([]) == [] && Log(events) == [];
    }
  }

  /**
   For every episode and every transcript of it, with any call-free messages anywhere between the
   calls and after the last: the names of the schemas the transcript selector keeps are exactly what
   the tracker of the observations allows, and on a coherent history what the event selector returns.
   */
  lemma MasksAgree(events: seq<Event>, around: seq<Surroundings>, tail: seq<Message>, schemas: seq<Tool>,
                   knowledgeFirst: bool)
    requires |around| == |events| && forall i | 0 <= i < |around| :: QuietAround(around[i])
    requires forall m | m in tail :: CallsNothing(m)
    requires forall i | 0 <= i < |events| :: events[i].tool != Other("")
    ensures var mode := Mode(knowledgeFirst, false);
            var completed := Collect(Render(events, around) + tail).completed;
            NamesOf(Keep(schemas, Allowed(Track(EntriesOf(completed)), NamesOf(schemas), mode))) ==
            Allowed(Track(Log(events)), NamesOf(schemas), mode)
    ensures var mode := Mode(knowledgeFirst, false);
            var completed := Collect(Render(events, around) + tail).completed;
            Coherent(events) ==>
              NamesOf(Keep(schemas, Allowed(Track(EntriesOf(completed)), NamesOf(schemas), mode))) ==
              Allowed(MaskTracker(events, mode), NamesOf(schemas), mode)
  {
    if Coherent(events) { CoherentTracker(events, Mode(knowledgeFirst, false)); }
    RenderCollects(events, around);
    QuietCollects(Render(events, around), tail);
    var allowed := Allowed(Track(Log(events)), NamesOf(schemas), Mode(knowledgeFirst, false));
    KeepNames(schemas, allowed);
    assert allowed <= NamesOf(schemas);
  }
}
