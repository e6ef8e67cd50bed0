/**
 The state of a select query as `SelectQueryBuilder` holds it, and the effect
 of each of the builder's fluent mutators on that state, as pure functions.
 Each mutator either replaces one clause or appends one entry to one ordered
 clause list; every other clause is left as it was.
 */
module QueryModel {
  import opened Values
  import opened Conditions

  /** One `orderBy` entry: `["attribute" => ..., "direction" => ...]`. */
  datatype OrderEntry = OrderEntry(attribute: string, direction: string)

  /**
   One entry of the join list. `join` appends a `JoinEntry`
   (`["type" => kind, "table" => ..., "alias" => ...]`); `on` appends a
   separate `OnEntry` (`["type" => "on", "on" => builder]`).
   */
  datatype JoinEntry =
    | JoinEntry(kind: string, table: string, alias: string)
    | OnEntry(on: Conditions)

  /** The "type" field of a join-list entry. */
  function EntryType(j: JoinEntry): string
  {
    match j
    case JoinEntry(kind, _, _) => kind
    case OnEntry(_) => "on"
  }

  /** What the "table" field of the from clause holds: a name or a nested query. */
  datatype FromTarget = TableName(name: string) | Subquery(query: Query)

  /** The from clause: empty (`[]`) until `from` or `fromSubquery` is called. */
  datatype FromClause =
    | NoFrom
    | FromClause(kind: string, target: FromTarget, alias: string)

  /** Every clause a select-query builder records. */
  datatype Query = Query(
    distinct: bool,
    select: seq<string>,
    from: FromClause,
    aggregate: seq<string>,
    join: seq<JoinEntry>,
    where: Conditions,
    groupBy: seq<string>,
    having: Conditions,
    orderBy: seq<OrderEntry>,
    limit: Option<int>,
    offset: Option<int>,
    union: seq<Query>)

  /** The state of a newly constructed builder. */
  function Initial(): Query
  {
    Query(false, [], NoFrom, [], [], [], [], [], [], None, None, [])
  }

  // ---------------------------------------------------------------------
  // Mutators that replace one clause

  function Select(q: Query, fields: seq<string>): (r: Query)
    ensures r.select == fields
    ensures r.(select := q.select) == q
  {
    q.(select := fields)
  }

  function Distinct(q: Query, isDistinct: bool := true): (r: Query)
    ensures r.distinct == isDistinct
    ensures r.(distinct := q.distinct) == q
  {
    q.(distinct := isDistinct)
  }

  function From(q: Query, table: string, alias: string := ""): (r: Query)
    ensures r.from.FromClause? && r.from.kind == "table"
    ensures r.from.target == TableName(table) && r.from.alias == alias
    ensures r.(from := q.from) == q
  {
    q.(from := FromClause("table", TableName(table), alias))
  }

  /**
   `fromSubquery`: the callback is run against a fresh builder and the
   resulting query becomes the source.
   */
  function FromSubquery(q: Query, subquery: Query -> Query, alias: string): (r: Query)
    ensures r.from.FromClause? && r.from.kind == "subquery"
    ensures r.from.target == Subquery(subquery(Initial())) && r.from.alias == alias
    ensures r.(from := q.from) == q
  {
    q.(from := FromClause("subquery", Subquery(subquery(Initial())), alias))
  }

  /** `where`: the callback receives the builder's own where-condition builder. */
  function Where(q: Query, condition: ConditionCallback): (r: Query)
    ensures r.where == condition(q.where)
    ensures r.(where := q.where) == q
  {
    q.(where := condition(q.where))
  }

  function Limit(q: Query, limit: Option<int>): (r: Query)
    ensures r.limit == limit
    ensures r.(limit := q.limit) == q
  {
    q.(limit := limit)
  }

  function Offset(q: Query, offset: Option<int>): (r: Query)
    ensures r.offset == offset
    ensures r.(offset := q.offset) == q
  {
    q.(offset := offset)
  }

  // ---------------------------------------------------------------------
  // Mutators that append one entry to an ordered list

  function Join(q: Query, table: string, alias: string := "", kind: string := ""): (r: Query)
    ensures |r.join| == |q.join| + 1
    ensures r.join[..|q.join|] == q.join
    ensures r.join[|q.join|] == JoinEntry(kind, table, alias)
    ensures r.(join := q.join) == q
  {
    q.(join := q.join + [JoinEntry(kind, table, alias)])
  }

  function LeftJoin(q: Query, table: string, alias: string := ""): (r: Query)
    ensures r == Join(q, table, alias, "LEFT")
  {
    Join(q, table, alias, "LEFT")
  }

  function RightJoin(q: Query, table: string, alias: string := ""): (r: Query)
    ensures r == Join(q, table, alias, "RIGHT")
  {
    Join(q, table, alias, "RIGHT")
  }

  /**
   `on`: the callback fills a fresh condition builder, which is appended as
   an entry of its own; the join entry before it is not touched.
   */
  function On(q: Query, on: ConditionCallback): (r: Query)
    ensures |r.join| == |q.join| + 1
    ensures r.join[..|q.join|] == q.join
    ensures r.join[|q.join|] == OnEntry(on([])) && EntryType(r.join[|q.join|]) == "on"
    ensures r.(join := q.join) == q
  {
    q.(join := q.join + [OnEntry(on([]))])
  }

  function Having(q: Query, operand1: string, operator: string, operand2: string,
                  connector: string := DefaultConnector): (r: Query)
    ensures |r.having| == |q.having| + 1
    ensures r.having[..|q.having|] == q.having
    ensures r.having[|q.having|] == ColumnToValue(operand1, operator, operand2, connector)
    ensures r.(having := q.having) == q
  {
    q.(having := q.having + [ColumnToValue(operand1, operator, operand2, connector)])
  }

  function HavingRaw(q: Query, condition: string, params: seq<Value> := [],
                     connector: string := DefaultConnector): (r: Query)
    ensures |r.having| == |q.having| + 1
    ensures r.having[..|q.having|] == q.having
    ensures r.having[|q.having|] == Raw(condition, params, connector)
    ensures r.(having := q.having) == q
  {
    q.(having := q.having + [Raw(condition, params, connector)])
  }

  function HavingNested(q: Query, condition: ConditionCallback,
                        connector: string := DefaultConnector): (r: Query)
    ensures |r.having| == |q.having| + 1
    ensures r.having[..|q.having|] == q.having
    ensures r.having[|q.having|] == Nested(condition([]), connector)
    ensures r.(having := q.having) == q
  {
    q.(having := q.having + [Nested(condition([]), connector)])
  }

  function GroupBy(q: Query, attribute: string): (r: Query)
    ensures |r.groupBy| == |q.groupBy| + 1
    ensures r.groupBy[..|q.groupBy|] == q.groupBy
    ensures r.groupBy[|q.groupBy|] == attribute
    ensures r.(groupBy := q.groupBy) == q
  {
    q.(groupBy := q.groupBy + [attribute])
  }

  /** `groupByAttributes`: `groupBy` applied to each attribute in turn. */
  function GroupByAttributes(q: Query, attributes: seq<string>): (r: Query)
    ensures |r.groupBy| == |q.groupBy| + |attributes|
    ensures r.groupBy[..|q.groupBy|] == q.groupBy
    ensures r.(groupBy := q.groupBy) == q
    decreases |attributes|
  {
    if attributes == [] then q
    else GroupByAttributes(GroupBy(q, attributes[0]), attributes[1..])
  }

  function OrderBy(q: Query, attribute: string, direction: string := "ASC"): (r: Query)
    ensures |r.orderBy| == |q.orderBy| + 1
    ensures r.orderBy[..|q.orderBy|] == q.orderBy
    ensures r.orderBy[|q.orderBy|] == OrderEntry(attribute, direction)
    ensures r.(orderBy := q.orderBy) == q
  {
    q.(orderBy := q.orderBy + [OrderEntry(attribute, direction)])
  }

  // ---------------------------------------------------------------------
  // Properties

  /** Calling `groupBy` once per attribute appends all of them, in order. */
  lemma {:induction false} GroupByAttributesAppends(q: Query, attributes: seq<string>)
    ensures GroupByAttributes(q, attributes) == q.(groupBy := q.groupBy + attributes)
    decreases |attributes|
  {
    if attributes != [] {
      var q' := GroupBy(q, attributes[0]);
      GroupByAttributesAppends(q', attributes[1..]);
      assert q.groupBy + attributes == q'.groupBy + attributes[1..];
    }
  }

  /** `groupByAttributes` over a concatenation is two calls in a row. */
  lemma {:induction false} GroupByAttributesConcat(q: Query, a: seq<string>, b: seq<string>)
    ensures GroupByAttributes(q, a + b) == GroupByAttributes(GroupByAttributes(q, a), b)
  {
    var qa := GroupByAttributes(q, a);
    GroupByAttributesAppends(q, a);
    assert qa.groupBy == q.groupBy + a;
    calc {
      GroupByAttributes(q, a + b);
      { GroupByAttributesAppends(q, a + b); }
      q.(groupBy := q.groupBy + (a + b));
      { assert q.groupBy + (a + b) == qa.groupBy + b; }
      qa.(groupBy := qa.groupBy + b);
      { GroupByAttributesAppends(qa, b); }
      GroupByAttributes(qa, b);
    }
  }

  /** `select`, `from` and `fromSubquery` replace their clause: the last call wins. */
  lemma SelectLastWins(q: Query, first: seq<string>, second: seq<string>)
    ensures Select(Select(q, first), second) == Select(q, second)
  {
  }

  lemma FromLastWins(q: Query, t1: string, a1: string, t2: string, a2: string,
                     sub: Query -> Query, a3: string, sub2: Query -> Query, a4: string)
    ensures From(From(q, t1, a1), t2, a2) == From(q, t2, a2)
    ensures FromSubquery(From(q, t1, a1), sub, a3) == FromSubquery(q, sub, a3)
    ensures From(FromSubquery(q, sub, a3), t2, a2) == From(q, t2, a2)
    ensures FromSubquery(FromSubquery(q, sub, a3), sub2, a4) == FromSubquery(q, sub2, a4)
  {
  }

  /**
   One mutator call, with its arguments. A sequence of calls is what a fluent
   chain on a builder performs.
   */
  datatype Call =
    | SelectCall(fields: seq<string>)
    | DistinctCall(isDistinct: bool)
    | FromCall(table: string, alias: string)
    | FromSubqueryCall(subquery: Query -> Query, alias: string)
    | JoinCall(table: string, alias: string, kind: string)
    | LeftJoinCall(table: string, alias: string)
    | RightJoinCall(table: string, alias: string)
    | OnCall(on: ConditionCallback)
    | WhereCall(condition: ConditionCallback)
    | HavingCall(operand1: string, operator: string, operand2: string, connector: string)
    | HavingRawCall(rawCondition: string, params: seq<Value>, connector: string)
    | HavingNestedCall(nested: ConditionCallback, connector: string)
    | GroupByCall(attribute: string)
    | GroupByAttributesCall(attributes: seq<string>)
    | OrderByCall(attribute: string, direction: string)
    | LimitCall(limit: Option<int>)
    | OffsetCall(offset: Option<int>)

  function Apply(q: Query, c: Call): Query
  {
    match c
    case SelectCall(fields) => Select(q, fields)
    case DistinctCall(d) => Distinct(q, d)
    case FromCall(t, a) => From(q, t, a)
    case FromSubqueryCall(s, a) => FromSubquery(q, s, a)
    case JoinCall(t, a, k) => Join(q, t, a, k)
    case LeftJoinCall(t, a) => LeftJoin(q, t, a)
    case RightJoinCall(t, a) => RightJoin(q, t, a)
    case OnCall(on) => On(q, on)
    case WhereCall(cond) => Where(q, cond)
    case HavingCall(o1, op, o2, conn) => Having(q, o1, op, o2, conn)
    case HavingRawCall(cond, ps, conn) => HavingRaw(q, cond, ps, conn)
    case HavingNestedCall(n, conn) => HavingNested(q, n, conn)
    case GroupByCall(a) => GroupBy(q, a)
    case GroupByAttributesCall(attrs) => GroupByAttributes(q, attrs)
    case OrderByCall(a, d) => OrderBy(q, a, d)
    case LimitCall(n) => Limit(q, n)
    case OffsetCall(n) => Offset(q, n)
  }

  /** The state reached from `q` by a chain of mutator calls. */
  function Run(q: Query, calls: seq<Call>): Query
    decreases |calls|
  {
    if calls == [] then q else Run(Apply(q, calls[0]), calls[1..])
  }

  /** No mutator reads or writes the `union` and `aggregate` clauses. */
  lemma ApplyKeepsUnionAndAggregate(q: Query, c: Call)
    ensures Apply(q, c).union == q.union && Apply(q, c).aggregate == q.aggregate
  {
    if c.GroupByAttributesCall? {
      GroupByAttributesAppends(q, c.attributes);
    }
  }

  /**
   Whatever chain of mutators runs on a new builder, `getUnion()` and
   `getAggregate()` stay empty.
   */
  lemma {:induction false} UnionAndAggregateStayEmpty(calls: seq<Call>, q: Query)
    requires q.union == [] && q.aggregate == []
    ensures Run(q, calls).union == [] && Run(q, calls).aggregate == []
    decreases |calls|
  {
    if calls != [] {
      ApplyKeepsUnionAndAggregate(q, calls[0]);
      UnionAndAggregateStayEmpty(calls[1..], Apply(q, calls[0]));
    }
  }
}
