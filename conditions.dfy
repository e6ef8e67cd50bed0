/**
 The condition builder as the select-query builder and the relationship code
 see it: an append-only, ordered list of condition nodes. How the nodes are
 rendered to SQL is not part of this model.
 */
module Conditions {
  import opened Values

  /** The connector a node method uses when its caller passes none. */
  const DefaultConnector: string := "and"

  /** One condition node, tagged with the connector that joins it to the previous one. */
  datatype CondNode =
    | Raw(sql: string, params: seq<Value>, connector: string)
    | ColumnToValue(column: string, operator: string, value: string, connector: string)
    | ColumnToColumn(leftColumn: string, operator: string, rightColumn: string,
                     leftTable: string, rightTable: string, connector: string)
    | InValues(column: string, values: seq<Key>, prefix: string, connector: string)
    | Nested(nodes: seq<CondNode>, connector: string)

  /** The contents of a condition builder. */
  type Conditions = seq<CondNode>

  /**
   A caller-supplied condition callback (`where`, `on`, `havingNested`),
   seen through its effect on the builder it receives.
   */
  type ConditionCallback = Conditions -> Conditions
}
