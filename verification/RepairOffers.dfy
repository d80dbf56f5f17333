/** What inspecting a schema diff offers: a text of the repaired query. */
module RepairOffers {
  import opened Prelude
  import opened Strings
  import opened SchemaDiffs
  import opened SqlLexer
  import opened RewriterAlgebra
  import opened SchemaRepair
  import opened Database
  import opened Queries
  import opened ProjectionContract
  import opened QueryNames
  import opened QueryText
  import opened MixedRepair

  /** The planner answers a text of a query with a text of the plan, or with the plan's error. */
  ghost predicate Answers(a: Alphabet, style: Style, answer: Result<string, PlannerError>, plan: Result<Plan, PlannerError>) {
    match plan
    case Ok(p) => answer.Ok? && Spells(a, style, answer.value, p.query)
    case Err(e) => answer == Err(e)
  }

  /** The stale text spells the query, and the foreign parts work on the texts of queries. */
  ghost predicate Understood(a: Alphabet, style: Style, tools: Tools, staleSql: string, q: Query,
                             ops: seq<Operation>, active: Option<Schema>)
  {
    && a.Valid() && (forall x :: a.fold(x) == Fold(x)) && style.Valid()
    && AllUnreserved(style, Mappings(ops)) && Spells(a, style, staleSql, q)
    && (forall sql, q' | Spells(a, style, sql, q') :: tools.readOnly(sql))
    && (active.Some? ==> forall sql, q' | Spells(a, style, sql, q') ::
          Answers(a, style, tools.project(sql, Additions(ops), active.value), PlanFor(q', Additions(ops), active.value)))
  }

  lemma NoAdditions(ops: seq<Operation>)
    ensures Additions(ops) == [] <==> forall op | op in ops :: !op.AddColumn?
  {
    AdditionsOf(ops);
    if Additions(ops) != [] { assert Additions(ops)[0] in Additions(ops); }
  }

  /** The repair of an understood text spells the repaired query, and is refused when there is none. */
  lemma RepairSpells(a: Alphabet, tools: Tools, staleSql: string, ops: seq<Operation>, log: seq<string>,
                     style: Style, q: Query, db: Db, active: Option<Schema>, r: Result<RepairPlan, string>)
    requires Understood(a, style, tools, staleSql, q, ops, ActiveSchema(SchemaOf(db), ops))
    requires active == if Additions(ops) == [] then None else ActiveSchema(SchemaOf(db), ops)
    requires SafeMappings(Mappings(ops))
    requires IsRepair(tools, staleSql, RewrittenInOrder(a, staleSql, Mappings(ops)), log, ops, active, r)
    ensures r.Ok? <==> Repaired(ops, q, db).Some?
    ensures r.Ok? ==> r.value.original == staleSql && Spells(a, style, r.value.repaired, Repaired(ops, q, db).value)
  {
    NoAdditions(ops);
    RepairedTextFollowsQuery(a, style, staleSql, q, Mappings(ops));
    var renamed, q' := RewrittenInOrder(a, staleSql, Mappings(ops)), RenamedQuery(ops, q);
    assert Spells(a, style, renamed, q');
    if active.Some? {
      assert Answers(a, style, tools.project(renamed, Additions(ops), active.value),
                     PlanFor(q', Additions(ops), active.value));
    }
  }

  /**
   The diff inspection of one episode, from its stale text and its source schema: a candidate is offered exactly
   when the repair of the query exists, and its text spells that repair.
   */
  method InspectSchemaDiff(a: Alphabet, tools: Tools, staleSql: string, ops: seq<Operation>, source: Option<Schema>,
                           ghost style: Style, ghost q: Query, ghost db: Db)
    returns (candidate: Option<RepairPlan>)
    ensures ops == [] ==> candidate.None?
    ensures source == Some(SchemaOf(db)) &&
            Understood(a, style, tools, staleSql, q, ops, ActiveSchema(SchemaOf(db), ops)) ==>
              && (candidate.Some? <==> ops != [] && Repaired(ops, q, db).Some?)
              && (candidate.Some? ==> candidate.value.original == staleSql &&
                                      Spells(a, style, candidate.value.repaired, Repaired(ops, q, db).value))
    ensures source.None? && (exists op | op in ops :: op.AddColumn?) ==> candidate.None?
  {
    var active: Option<Schema> := None;
    NoAdditions(ops);
    if source.Some? && Additions(ops) != [] {
      active := ActiveSchemaForProjection(source.value, ops);
    }
    if ops == [] {
      return None;
    }
    var r := PlanAuditedSchemaRepair(a, tools, staleSql, ops, active);
    candidate := match r case Ok(plan) => Some(plan) case Err(_) => None;
    if source == Some(SchemaOf(db)) && Understood(a, style, tools, staleSql, q, ops, ActiveSchema(SchemaOf(db), ops)) {
      if SafeMappings(Mappings(ops)) {
        RepairSpells(a, tools, staleSql, ops, Applied(a, staleSql, ops), style, q, db, active, r);
      }
    }
  }
}
