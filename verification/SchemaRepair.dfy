/** The repair candidate that an audited schema diff determines. */
module SchemaRepair {
  import opened Prelude
  import opened Strings
  import opened SqlLexer
  import opened IdentifierRewriter
  import opened RewriterAlgebra
  import opened SchemaDiffs
  import ProjectionContract

  datatype RepairPlan = RepairPlan(original: string, repaired: string, applied: seq<string>, changed: bool)

  /** Foreign parts: the query parser and the projection planner. */
  datatype Tools = Tools(
    readOnly: string -> bool,
    project: (string, seq<Operation>, ProjectionContract.Schema) -> Result<string, PlannerError>)

  function KindName(op: Operation): string {
    match op
    case RenameTable(_, _) => "rename_table"
    case RenameColumn(_, _, _, _) => "rename_column"
    case ReplaceColumn(_, _, _, _) => "replace_column"
    case AddColumn(_, _, _, _) => "add_column"
    case MetricChange => "metric_definition_change"
    case Unsupported(kind) => kind
  }

  function MappingOf(op: Operation): Mapping
    requires IsMapping(op)
  {
    Mapping(Strip(op.oldName), Strip(op.newName))
  }

  function Mappings(ops: seq<Operation>): seq<Mapping> {
    if ops == [] then [] else
    var k := |ops| - 1;
    Mappings(ops[..k]) + if IsMapping(ops[k]) then [MappingOf(ops[k])] else []
  }

  /** The kinds of the mappings that changed the text they met. */
  function Applied(a: Alphabet, sql: string, ops: seq<Operation>): seq<string> {
    if ops == [] then [] else
    var k := |ops| - 1;
    Applied(a, sql, ops[..k]) +
    if IsMapping(ops[k]) &&
       RewrittenInOrder(a, sql, Mappings(ops[..k])) != RewrittenInOrder(a, sql, Mappings(ops))
    then [KindName(ops[k])] else []
  }

  function Normalized(sql: string): string {
    Strip(DropSemicolons(sql))
  }

  lemma {:induction false} AdditionsOf(ops: seq<Operation>)
    ensures forall op :: op in Additions(ops) <==> op.AddColumn? && op in ops
  {
    if ops != [] {
      var k := |ops| - 1;
      AdditionsOf(ops[..k]);
      assert ops == ops[..k] + [ops[k]];
    }
  }

  /** A mapping that the rewriter refuses is still there when more operations follow. */
  lemma {:induction false} MappingsGrow(ops: seq<Operation>, k: nat)
    requires k <= |ops|
    ensures SafeMappings(Mappings(ops)) ==> SafeMappings(Mappings(ops[..k]))
  {
    if k < |ops| {
      var n := |ops| - 1;
      MappingsGrow(ops[..n], k);
      assert ops[..n][..k] == ops[..k];
      assert forall m | m in Mappings(ops[..n]) :: m in Mappings(ops);
    } else {
      assert ops[..k] == ops;
    }
  }

  /** What one more operation adds to the mappings, the text, and the log. */
  lemma OneMore(a: Alphabet, sql: string, ops: seq<Operation>, i: nat)
    requires i < |ops|
    ensures var past, now := ops[..i], ops[..i + 1];
            var before, after := RewrittenInOrder(a, sql, Mappings(past)), RewrittenInOrder(a, sql, Mappings(now));
            if IsMapping(ops[i]) then
              var m := Mapping(Strip(ops[i].oldName), Strip(ops[i].newName));
              var kind := if ops[i].RenameTable? then "rename_table"
                          else if ops[i].RenameColumn? then "rename_column" else "replace_column";
              && (SafeMappings(Mappings(now)) <==>
                    SafeMappings(Mappings(past)) && IsIdentifier(m.oldName) && IsIdentifier(m.newName))
              && after == Rewritten(a, before, m.oldName, m.newName)
              && Applied(a, sql, now) == Applied(a, sql, past) + if before != after then [kind] else []
            else
              Mappings(now) == Mappings(past) && after == before && Applied(a, sql, now) == Applied(a, sql, past)
  {
    var past, now := ops[..i], ops[..i + 1];
    assert now[..i] == past;
    if IsMapping(ops[i]) {
      var ms, m := Mappings(past), MappingOf(ops[i]);
      assert Mappings(now) == ms + [m];
      assert (ms + [m])[..|ms|] == ms;
      assert m in ms + [m];
      assert forall x :: x in ms ==> x in ms + [m];
    }
  }

  /** The loop over rename and replacement operations. */
  method RewriteMappings(a: Alphabet, staleSql: string, ops: seq<Operation>)
    returns (r: Result<(string, seq<string>), string>)
    ensures r.Ok? <==> SafeMappings(Mappings(ops))
    ensures r.Ok? ==> r.value == (RewrittenInOrder(a, staleSql, Mappings(ops)), Applied(a, staleSql, ops))
  {
    var repaired := staleSql;
    var applied: seq<string> := [];
    assert ops[..0] == [];
    for i := 0 to |ops|
      invariant SafeMappings(Mappings(ops[..i]))
      invariant repaired == RewrittenInOrder(a, staleSql, Mappings(ops[..i]))
      invariant applied == Applied(a, staleSql, ops[..i])
    {
      var op := ops[i];
      OneMore(a, staleSql, ops, i);
      MappingsGrow(ops, i + 1);
      if !IsMapping(op) {
        continue;
      }
      var m := MappingOf(op);
      if m.oldName == "" || m.newName == "" {
        return Err("Audited identifier mapping is incomplete");
      }
      var updated := RewriteSqlIdentifier(a, repaired, m.oldName, m.newName);
      if updated.Err? {
        return Err(updated.error);
      }
      if updated.value != repaired {
        repaired := updated.value;
        applied := applied + [KindName(op)];
      }
    }
    assert ops[..|ops|] == ops;
    return Ok((repaired, applied));
  }

  /** A candidate is made from the text unless it is no query. */
  predicate Proposes(tools: Tools, staleSql: string, text: string, log: seq<string>, r: Result<RepairPlan, string>) {
    && (r.Ok? <==> tools.readOnly(text))
    && (r.Ok? ==> r.value == RepairPlan(staleSql, text, log, Normalized(text) != Normalized(staleSql)))
  }

  /** What follows the mappings: without additions the renamed text; with them the planner's, when it has one. */
  predicate IsRepair(tools: Tools, staleSql: string, renamed: string, log: seq<string>, ops: seq<Operation>,
                     schema: Option<ProjectionContract.Schema>, r: Result<RepairPlan, string>)
  {
    if forall op | op in ops :: !op.AddColumn? then Proposes(tools, staleSql, renamed, log, r)
    else if schema.None? then r.Err?
    else
      match tools.project(renamed, Additions(ops), schema.value)
      case Ok(p) => Proposes(tools, staleSql, p, log + ["add_column_projection_contract"], r)
      case Err(NoWildcard) => Proposes(tools, staleSql, renamed, log, r)
      case Err(Invalid) => r.Err?
  }

  /**
   `plan_audited_schema_repair`: refused when the stale text is no query, a mapping is unusable, or columns were
   added and the active schema is missing. Otherwise the candidate is the ordered rewrite; or, when columns were
   added, the planner's text; or still the rewrite when the planner saw no wildcard.
   */
  method PlanAuditedSchemaRepair(a: Alphabet, tools: Tools, staleSql: string, ops: seq<Operation>,
                                 schema: Option<ProjectionContract.Schema>)
    returns (r: Result<RepairPlan, string>)
    ensures r.Ok? ==> tools.readOnly(staleSql) && SafeMappings(Mappings(ops)) &&
                      (schema.None? ==> forall op | op in ops :: !op.AddColumn?)
    ensures tools.readOnly(staleSql) && SafeMappings(Mappings(ops)) ==>
              IsRepair(tools, staleSql, RewrittenInOrder(a, staleSql, Mappings(ops)), Applied(a, staleSql, ops),
                       ops, schema, r)
    ensures r.Ok? ==>
              var renamed, log := RewrittenInOrder(a, staleSql, Mappings(ops)), Applied(a, staleSql, ops);
              if schema.Some? && (exists op | op in ops :: op.AddColumn?) &&
                 tools.project(renamed, Additions(ops), schema.value).Ok?
              then r.value.repaired == tools.project(renamed, Additions(ops), schema.value).value &&
                   r.value.applied == log + ["add_column_projection_contract"]
              else r.value.repaired == renamed && r.value.applied == log
  {
    if !tools.readOnly(staleSql) {
      return Err("Audited repair requires one read-only SQL query");
    }
    var renamed := RewriteMappings(a, staleSql, ops);
    if renamed.Err? {
      return Err(renamed.error);
    }
    var (repaired, applied) := renamed.value;
    var additions := Additions(ops);
    AdditionsOf(ops);
    assert additions != [] ==> additions[0] in additions;
    if additions != [] {
      if schema.None? {
        return Err("Add-column repair requires the ordered active schema");
      }
      match tools.project(repaired, additions, schema.value) {
        case Ok(projection) =>
          repaired := projection;
          applied := applied + ["add_column_projection_contract"];
        case Err(NoWildcard) =>
        case Err(Invalid) =>
          return Err("projection planner failed");
      }
    }
    if !tools.readOnly(repaired) {
      return Err("Audited repair produced a non-query expression");
    }
    return Ok(RepairPlan(staleSql, repaired, applied, Normalized(repaired) != Normalized(staleSql)));
  }

  lemma {:induction false} SemicolonsDropped(s: string, semicolons: string)
    requires (s != "" ==> s[|s| - 1] != ';') && forall i | 0 <= i < |semicolons| :: semicolons[i] == ';'
    ensures DropSemicolons(s + semicolons) == s
  {
    if semicolons == "" {
      assert s + semicolons == s;
    } else {
      var k := |semicolons| - 1;
      SemicolonsDropped(s, semicolons[..k]);
      assert (s + semicolons)[..|s| + k] == s + semicolons[..k];
    }
  }

  /** What `changed` compares: the text without its trailing semicolons, and then without the spaces around it. */
  lemma NormalizedIs(core: string, lead: string, tail: string, semicolons: string)
    requires core != "" ==> core[0] !in SPACES && core[|core| - 1] !in SPACES
    requires (forall i | 0 <= i < |lead| :: lead[i] in SPACES) && (forall i | 0 <= i < |tail| :: tail[i] in SPACES)
    requires forall i | 0 <= i < |semicolons| :: semicolons[i] == ';'
    requires tail == "" ==> core == "" || core[|core| - 1] != ';'
    ensures Normalized(lead + core + tail + semicolons) == core
  {
    var s := lead + core + tail;
    assert s != "" ==> s[|s| - 1] != ';';
    SemicolonsDropped(s, semicolons);
    StripAround(core, lead, tail);
  }
}
