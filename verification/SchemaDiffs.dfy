/** Audited schema operations, in the order in which they happened. */
module SchemaDiffs {
  import opened Prelude

  datatype Operation =
    | RenameTable(oldName: string, newName: string)
    | RenameColumn(table: string, oldName: string, newName: string, declaredType: Option<string>)
    | ReplaceColumn(table: string, oldName: string, newName: string, declaredType: Option<string>)
    | AddColumn(table: string, newName: string, declaredType: Option<string>, defaultSql: Option<string>)
    | MetricChange
    | Unsupported(kind: string)

  /** Why the projection planner gave up; only the first kind is harmless. */
  datatype PlannerError = NoWildcard | Invalid

  predicate IsMapping(op: Operation) {
    op.RenameTable? || op.RenameColumn? || op.ReplaceColumn?
  }

  function Additions(ops: seq<Operation>): seq<Operation> {
    if ops == [] then [] else
    var k := |ops| - 1;
    Additions(ops[..k]) + if ops[k].AddColumn? then [ops[k]] else []
  }
}
