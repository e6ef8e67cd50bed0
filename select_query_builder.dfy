/**
 `SelectQueryBuilder`: a mutable object with one field per clause. Every
 mutator changes its own field and no other, and each is specified by the
 matching transformer of `QueryModel` applied to the old state. The
 connection, `execute`, `getSql` and `getParams` are not part of this model.
 */
module QueryBuilder {
  import opened Values
  import opened Conditions
  import opened QueryModel

  class SelectQueryBuilder {
    var distinct: bool
    var select: seq<string>
    var from: FromClause
    var aggregate: seq<string>
    var join: seq<JoinEntry>
    var where: Conditions
    var groupBy: seq<string>
    var having: Conditions
    var orderBy: seq<OrderEntry>
    var limit: Option<int>
    var offset: Option<int>
    var union: seq<Query>

    /** The clauses recorded so far, as one value. */
    function State(): Query
      reads this
    {
      Query(distinct, select, from, aggregate, join, where, groupBy, having,
            orderBy, limit, offset, union)
    }

    /** No mutator ever sets `union` or `aggregate`: both stay empty. */
    ghost predicate Valid()
      reads this
    {
      GetUnion() == [] && GetAggregate() == []
    }

    constructor ()
      ensures Valid()
      ensures State() == Initial()
      ensures !distinct && select == [] && from == NoFrom && join == []
      ensures groupBy == [] && orderBy == [] && union == [] && aggregate == []
      ensures limit == None && offset == None && where == [] && having == []
    {
      distinct := false;
      select := [];
      from := NoFrom;
      aggregate := [];
      join := [];
      where := [];
      groupBy := [];
      having := [];
      orderBy := [];
      limit := None;
      offset := None;
      union := [];
    }

    method Select(fields: seq<string>)
      requires Valid()
      modifies this
      ensures Valid()
      ensures State() == QueryModel.Select(old(State()), fields)
    {
      select := fields;
    }

    method Distinct(isDistinct: bool := true)
      requires Valid()
      modifies this
      ensures Valid()
      ensures State() == QueryModel.Distinct(old(State()), isDistinct)
    {
      distinct := isDistinct;
    }

    method From(table: string, alias: string := "")
      requires Valid()
      modifies this
      ensures Valid()
      ensures State() == QueryModel.From(old(State()), table, alias)
    {
      from := FromClause("table", TableName(table), alias);
    }

    method FromSubquery(subquery: Query -> Query, alias: string)
      requires Valid()
      modifies this
      ensures Valid()
      ensures State() == QueryModel.FromSubquery(old(State()), subquery, alias)
    {
      var queryBuilder := new SelectQueryBuilder();
      from := FromClause("subquery", Subquery(subquery(queryBuilder.State())), alias);
    }

    method LeftJoin(table: string, alias: string := "")
      requires Valid()
      modifies this
      ensures Valid()
      ensures State() == QueryModel.LeftJoin(old(State()), table, alias)
    {
      Join(table, alias, "LEFT");
    }

    method RightJoin(table: string, alias: string := "")
      requires Valid()
      modifies this
      ensures Valid()
      ensures State() == QueryModel.RightJoin(old(State()), table, alias)
    {
      Join(table, alias, "RIGHT");
    }

    method Join(table: string, alias: string := "", kind: string := "")
      requires Valid()
      modifies this
      ensures Valid()
      ensures State() == QueryModel.Join(old(State()), table, alias, kind)
    {
      join := join + [JoinEntry(kind, table, alias)];
    }

    method On(on: ConditionCallback)
      requires Valid()
      modifies this
      ensures Valid()
      ensures State() == QueryModel.On(old(State()), on)
    {
      var queryBuilder: Conditions := [];
      join := join + [OnEntry(on(queryBuilder))];
    }

    method Where(condition: ConditionCallback)
      requires Valid()
      modifies this
      ensures Valid()
      ensures State() == QueryModel.Where(old(State()), condition)
    {
      where := condition(where);
    }

    method Having(operand1: string, operator: string, operand2: string,
                  connector: string := DefaultConnector)
      requires Valid()
      modifies this
      ensures Valid()
      ensures State() == QueryModel.Having(old(State()), operand1, operator, operand2, connector)
    {
      having := having + [ColumnToValue(operand1, operator, operand2, connector)];
    }

    method HavingRaw(condition: string, params: seq<Value> := [],
                     connector: string := DefaultConnector)
      requires Valid()
      modifies this
      ensures Valid()
      ensures State() == QueryModel.HavingRaw(old(State()), condition, params, connector)
    {
      having := having + [Raw(condition, params, connector)];
    }

    method HavingNested(condition: ConditionCallback, connector: string := DefaultConnector)
      requires Valid()
      modifies this
      ensures Valid()
      ensures State() == QueryModel.HavingNested(old(State()), condition, connector)
    {
      having := having + [Nested(condition([]), connector)];
    }

    method GroupBy(attribute: string)
      requires Valid()
      modifies this
      ensures Valid()
      ensures State() == QueryModel.GroupBy(old(State()), attribute)
    {
      groupBy := groupBy + [attribute];
    }

    /**
     Calls `GroupBy` once per attribute; afterwards the attributes follow the
     earlier group-by entries, in the order given.
     */
    method GroupByAttributes(attributes: seq<string>)
      requires Valid()
      modifies this
      ensures Valid()
      ensures State() == QueryModel.GroupByAttributes(old(State()), attributes)
      ensures State() == old(State()).(groupBy := old(groupBy) + attributes)
    {
      var i := 0;
      while i < |attributes|
        invariant 0 <= i <= |attributes|
        invariant Valid()
        invariant State() == old(State()).(groupBy := old(groupBy) + attributes[..i])
      {
        GroupBy(attributes[i]);
        assert attributes[..i + 1] == attributes[..i] + [attributes[i]];
        i := i + 1;
      }
      assert attributes[..i] == attributes;
      GroupByAttributesAppends(old(State()), attributes);
    }

    method OrderBy(attribute: string, direction: string := "ASC")
      requires Valid()
      modifies this
      ensures Valid()
      ensures State() == QueryModel.OrderBy(old(State()), attribute, direction)
    {
      orderBy := orderBy + [OrderEntry(attribute, direction)];
    }

    method Limit(limit: Option<int>)
      requires Valid()
      modifies this
      ensures Valid()
      ensures State() == QueryModel.Limit(old(State()), limit)
      ensures GetLimit() == limit
    {
      this.limit := limit;
    }

    method Offset(offset: Option<int>)
      requires Valid()
      modifies this
      ensures Valid()
      ensures State() == QueryModel.Offset(old(State()), offset)
      ensures GetOffset() == offset
    {
      this.offset := offset;
    }

    // Getters: each returns the clause of the recorded state it names.

    function GetSelect(): (r: seq<string>)
      reads this
      ensures r == State().select
    {
      select
    }

    function IsDistinct(): (r: bool)
      reads this
      ensures r == State().distinct
    {
      distinct
    }

    function GetFrom(): (r: FromClause)
      reads this
      ensures r == State().from
    {
      from
    }

    function GetAggregate(): (r: seq<string>)
      reads this
      ensures r == State().aggregate
    {
      aggregate
    }

    function GetJoins(): (r: seq<JoinEntry>)
      reads this
      ensures r == State().join
    {
      join
    }

    function GetWhere(): (r: Conditions)
      reads this
      ensures r == State().where
    {
      where
    }

    function GetGroupBy(): (r: seq<string>)
      reads this
      ensures r == State().groupBy
    {
      groupBy
    }

    function GetHaving(): (r: Conditions)
      reads this
      ensures r == State().having
    {
      having
    }

    function GetOrderBy(): (r: seq<OrderEntry>)
      reads this
      ensures r == State().orderBy
    {
      orderBy
    }

    function GetLimit(): (r: Option<int>)
      reads this
      ensures r == State().limit
    {
      limit
    }

    function GetOffset(): (r: Option<int>)
      reads this
      ensures r == State().offset
    {
      offset
    }

    function GetUnion(): (r: seq<Query>)
      reads this
      ensures r == State().union
    {
      union
    }
  }
}
