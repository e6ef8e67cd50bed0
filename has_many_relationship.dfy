/**
 `HasManyRelationship`: the configuration of a one-to-many relationship and
 the select query that loads the related rows of a batch of parents. The
 query is built by driving a `SelectQueryBuilder` through a fixed chain of
 mutators; its resulting clause state is `RelationshipQuery`.
 */
module HasMany {
  import opened Values
  import opened Conditions
  import opened QueryModel
  import opened QueryBuilder
  import opened Relationships

  /** The join condition: `parent.referencedKey = related.foreignKey`, one node. */
  function JoinCondition(referencedKey: string, foreignKey: string, parentTable: string,
                         relatedTable: string): ConditionCallback
  {
    c => c + [ColumnToColumn(referencedKey, "=", foreignKey, parentTable, relatedTable,
                             DefaultConnector)]
  }

  /** A callback that appends given nodes to the builder it receives. */
  function AppendConditions(nodes: Conditions): ConditionCallback
  {
    c => c + nodes
  }

  /**
   The clause state `getRelationship` leaves in a new builder: all columns of
   the related table, from the related table, joined with the parent table on
   `referencedKey = foreignKey`, restricted to the parents' non-null ids.
   Every other clause keeps its initial value.
   */
  function RelationshipQuery(parentModel: Model, relatedModel: Model, referencedKey: string,
                             foreignKey: string, entities: seq<Entity>, wherePrefix: string,
                             whereColumn: string): (r: Query)
    ensures r.select == ["`" + relatedModel.table + "`.*"]
    ensures r.from == FromClause("table", TableName(relatedModel.table), "")
    ensures |r.join| == 2
    ensures r.join[0] == JoinEntry("", parentModel.table, "")
    ensures EntryType(r.join[1]) == "on"
    ensures r.join[1] == OnEntry([ColumnToColumn(referencedKey, "=", foreignKey, parentModel.table,
                                                 relatedModel.table, DefaultConnector)])
    ensures r.where == WhereCondition(parentModel, wherePrefix, whereColumn, entities)
    ensures |r.where| == 1 && r.where[0].InValues?
    ensures r.where[0].column == whereColumn && r.where[0].prefix == wherePrefix
    ensures forall id :: id in r.where[0].values <==>
              exists i :: 0 <= i < |entities| && parentModel.getId(entities[i]) == Some(id)
    ensures r.(select := [], from := NoFrom, join := [], where := []) == Initial()
  {
    var q0 := Select(Initial(), ["`" + relatedModel.table + "`.*"]);
    var q1 := From(q0, relatedModel.table);
    var q2 := Join(q1, parentModel.table);
    var q3 := On(q2, JoinCondition(referencedKey, foreignKey, parentModel.table,
                                   relatedModel.table));
    NonNullIdsMembers(parentModel, entities);
    Where(q3, AppendConditions(WhereCondition(parentModel, wherePrefix, whereColumn, entities)))
  }

  class HasManyRelationship {
    const relatedModel: string
    const foreignKey: string
    const referencedKey: string

    constructor (relatedModel: string, foreignKey: string, referencedKey: string)
      ensures GetRelatedModel() == relatedModel
      ensures GetForeignKey() == foreignKey
      ensures GetReferencedKey() == referencedKey
    {
      this.relatedModel := relatedModel;
      this.foreignKey := foreignKey;
      this.referencedKey := referencedKey;
    }

    /**
     The query loading the related rows of `entities`. `container` resolves
     the related model's name; `wherePrefix` and `whereColumn` are the prefix
     and column of the `IN` condition over the parents' ids.
     */
    method GetRelationship(model: Model, container: string -> Model, entities: seq<Entity>,
                           wherePrefix: string, whereColumn: string)
      returns (queryBuilder: SelectQueryBuilder)
      ensures fresh(queryBuilder) && queryBuilder.Valid()
      ensures queryBuilder.State()
           == RelationshipQuery(model, container(relatedModel), referencedKey, foreignKey,
                                entities, wherePrefix, whereColumn)
    {
      var related := container(relatedModel);
      queryBuilder := new SelectQueryBuilder();
      queryBuilder.Select(["`" + related.table + "`.*"]);
      queryBuilder.From(related.table);
      queryBuilder.Join(model.table);
      queryBuilder.On(JoinCondition(referencedKey, foreignKey, model.table, related.table));
      var condition := GetWhereCondition(model, wherePrefix, whereColumn, entities);
      queryBuilder.Where(AppendConditions(condition));
    }

    /** `matchEntities`: the parents come back unchanged, whatever the related rows. */
    function MatchEntities(entities: seq<Entity>, relationshipName: string,
                           relatedEntities: seq<Entity>): (r: seq<Entity>)
      ensures r == entities
    {
      entities
    }

    function GetRelatedModel(): string { relatedModel }
    function GetForeignKey(): string { foreignKey }
    function GetReferencedKey(): string { referencedKey }
  }
}
