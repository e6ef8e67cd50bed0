# worm ORM core in Dafny: the select-query builder and relationship row matching

This project models two pieces of the worm PHP ORM and proves properties of them.

**The select-query builder** (`SelectQueryBuilder`) is a record of clauses:
- `distinct`, `select`, `from`, the join list, `where`, `groupBy`, `having`, `orderBy`, `limit`, `offset`, `union` and `aggregate`.
- Each fluent mutator either replaces one clause or appends one entry to an ordered list.

In the Dafny:
- `QueryModel` holds the clause record as the `Query` datatype. Each mutator is a pure transformer on it, and the module also holds the lemmas about them.
- `QueryBuilder.SelectQueryBuilder` is a class with one field per clause.
  - Every method states its new `State()` as the transformer applied to the old state.
  - `Valid()` records that `union` and `aggregate` stay empty.

**The relationship row matching** (`AbstractRelationship` and `HasManyRelationship`) loads the related rows of a batch of parents and attaches them. It has five steps:
- collecting the non-null parent ids for the `IN` condition (`getWhereCondition`);
- indexing the related rows by foreign key (`getEntityMapForOne` / `getEntityMapForMany`);
- attaching the match of each parent under the relationship name (`insertOneRelationship` / `insertManyRelationship`);
- recording each attached row in the identity map (`addToEntityMap`, `setRelatedIds`);
- building the query that loads the related rows (`HasManyRelationship.getRelationship`).

Each PHP `foreach` is a Dafny method with a loop. It is proved equal to a specification function, and the properties the source promises are lemmas about those functions.

Modules:
- `Values`: keys, entity values, and the model view.
- `Conditions`: a condition builder as an append-only list of nodes.
- `QueryModel`, `QueryBuilder`.
- `IdentityMaps`: the identity map as known ids plus edge sets.
- `Relationships`, `HasMany`.

Where the code and its evident design disagree, this model follows the code, with these exceptions:
- `HasManyRelationship.getRelationship` calls `getWhereCondition($model, $entities)` with two arguments (src/Model/Relationship/HasManyRelationship.php:61). The parent declares three: prefix, foreign key and entities (src/Model/Relationship/AbstractRelationship.php:28).
  - The model follows the parent's declaration. `GetRelationship` takes the prefix and column of the `IN` condition as the parameters `wherePrefix` and `whereColumn`.
- The same call passes the resulting condition builder to `where`, which takes a closure. The model passes a callback that appends the condition's nodes.
- `HasManyRelationship`'s constructor never sets the inherited `parentModel`. `getWhereCondition` reads the parent ids through it. The model uses the `$model` argument of `getRelationship` as the parent model.
- `getRelationship` calls `fields` on the external Larva builder. The model treats it as this repository's `select`.
- `setRelatedIds` calls `$this->getModel()`, which no class shown declares. The model takes the related model as a parameter.
- The parent lookup in `insertOneRelationship` and `insertManyRelationship` (src/Model/Relationship/AbstractRelationship.php:56 and :85) reads a null or missing parent field as the key `""`. The model follows the evident intent instead: such a parent has no match. `InsertOne`, `InsertMany`, `InsertOneRelationship` and `InsertManyRelationship` use this corrected lookup. "## Findings" records both cases, each with a lemma for the lookup as written.

## Model

| member | source | states |
|---|---|---|
| QueryBuilder.SelectQueryBuilder.constructor | src/Query/Select/SelectQueryBuilder.php:21-88 | A new builder is not distinct. Its select, from, join, group-by, order-by, union and aggregate clauses are empty. Limit and offset are null. The where and having condition builders are empty. |
| QueryModel.Select | src/Query/Select/SelectQueryBuilder.php:90-95 | `select` replaces the field list with the given one; every other clause is unchanged. |
| QueryBuilder.SelectQueryBuilder.Select | src/Query/Select/SelectQueryBuilder.php:90-95 | The builder's new state is `QueryModel.Select` of the old state; union and aggregate stay empty. |
| QueryModel.Distinct | src/Query/Select/SelectQueryBuilder.php:97-102 | `distinct` sets the flag (default true); every other clause is unchanged. |
| QueryBuilder.SelectQueryBuilder.Distinct | src/Query/Select/SelectQueryBuilder.php:97-102 | The new state is `QueryModel.Distinct` of the old state. |
| QueryModel.From | src/Query/Select/SelectQueryBuilder.php:104-113 | `from` replaces the source with a "table" entry of that table and alias (default ""); every other clause is unchanged. |
| QueryBuilder.SelectQueryBuilder.From | src/Query/Select/SelectQueryBuilder.php:104-113 | The new state is `QueryModel.From` of the old state. |
| QueryModel.FromSubquery | src/Query/Select/SelectQueryBuilder.php:115-127 | `fromSubquery` replaces the source with a "subquery" entry holding the query the callback builds from a fresh builder; every other clause is unchanged. |
| QueryBuilder.SelectQueryBuilder.FromSubquery | src/Query/Select/SelectQueryBuilder.php:115-127 | The new state is `QueryModel.FromSubquery` of the old state, the callback being run on a new builder's state. |
| QueryModel.SelectLastWins | src/Query/Select/SelectQueryBuilder.php:90-95 | Two `select` calls in a row equal the second alone. |
| QueryModel.FromLastWins | src/Query/Select/SelectQueryBuilder.php:104-127 | For every pair of `from` and `fromSubquery` calls, in either order and including two of the same kind, the pair equals its second call alone. |
| QueryModel.LeftJoin | src/Query/Select/SelectQueryBuilder.php:129-132 | `leftJoin` is `join` with type "LEFT". |
| QueryBuilder.SelectQueryBuilder.LeftJoin | src/Query/Select/SelectQueryBuilder.php:129-132 | The new state is `QueryModel.LeftJoin` of the old state. |
| QueryModel.RightJoin | src/Query/Select/SelectQueryBuilder.php:134-137 | `rightJoin` is `join` with type "RIGHT". |
| QueryBuilder.SelectQueryBuilder.RightJoin | src/Query/Select/SelectQueryBuilder.php:134-137 | The new state is `QueryModel.RightJoin` of the old state. |
| QueryModel.Join | src/Query/Select/SelectQueryBuilder.php:139-148 | `join` grows the join list by exactly one entry, placed at the end, with the given type, table and alias. Earlier entries and every other clause are unchanged. |
| QueryBuilder.SelectQueryBuilder.Join | src/Query/Select/SelectQueryBuilder.php:139-148 | The new state is `QueryModel.Join` of the old state. |
| QueryModel.On | src/Query/Select/SelectQueryBuilder.php:150-161 | `on` appends one separate entry of type "on" holding the conditions the callback put into a fresh builder. The join list grows by exactly one, the earlier join entry is untouched, and nothing else changes. |
| QueryBuilder.SelectQueryBuilder.On | src/Query/Select/SelectQueryBuilder.php:150-161 | The new state is `QueryModel.On` of the old state. |
| QueryModel.Where | src/Query/Select/SelectQueryBuilder.php:163-168 | `where` hands the builder's own where conditions to the callback and keeps what it leaves there; nothing else changes. |
| QueryBuilder.SelectQueryBuilder.Where | src/Query/Select/SelectQueryBuilder.php:163-168 | The new state is `QueryModel.Where` of the old state. |
| QueryModel.Having | src/Query/Select/SelectQueryBuilder.php:170-175 | `having` appends one column-to-value node, connector "and" by default, at the end of the having conditions; nothing else changes. |
| QueryBuilder.SelectQueryBuilder.Having | src/Query/Select/SelectQueryBuilder.php:170-175 | The new state is `QueryModel.Having` of the old state. |
| QueryModel.HavingRaw | src/Query/Select/SelectQueryBuilder.php:177-182 | `havingRaw` appends one raw node with its parameters (default none) at the end of the having conditions; nothing else changes. |
| QueryBuilder.SelectQueryBuilder.HavingRaw | src/Query/Select/SelectQueryBuilder.php:177-182 | The new state is `QueryModel.HavingRaw` of the old state. |
| QueryModel.HavingNested | src/Query/Select/SelectQueryBuilder.php:184-189 | `havingNested` appends one nested node holding what the callback built at the end of the having conditions; nothing else changes. |
| QueryBuilder.SelectQueryBuilder.HavingNested | src/Query/Select/SelectQueryBuilder.php:184-189 | The new state is `QueryModel.HavingNested` of the old state. |
| QueryModel.GroupBy | src/Query/Select/SelectQueryBuilder.php:191-196 | `groupBy` appends the attribute at the end of the group-by list; nothing else changes. |
| QueryBuilder.SelectQueryBuilder.GroupBy | src/Query/Select/SelectQueryBuilder.php:191-196 | The new state is `QueryModel.GroupBy` of the old state. |
| QueryModel.GroupByAttributesAppends | src/Query/Select/SelectQueryBuilder.php:198-205 | Calling `groupBy` on each attribute in turn leaves the old group-by list followed by the attributes, in order; nothing else changes. |
| QueryModel.GroupByAttributes | src/Query/Select/SelectQueryBuilder.php:198-205 | `groupBy` folded over the attributes grows the group-by list by exactly their number, keeps the old entries as a prefix, and leaves every other clause unchanged. |
| QueryModel.GroupByAttributesConcat | src/Query/Select/SelectQueryBuilder.php:198-205 | `groupByAttributes` over `a + b` equals `groupByAttributes(a)` followed by `groupByAttributes(b)`. |
| QueryBuilder.SelectQueryBuilder.GroupByAttributes | src/Query/Select/SelectQueryBuilder.php:198-205 | The loop leaves the state that the fold of `groupBy` gives, namely the old group-by list followed by the attributes. |
| QueryModel.OrderBy | src/Query/Select/SelectQueryBuilder.php:207-212 | `orderBy` appends one entry of that attribute and direction (default "ASC") at the end. Earlier entries and every other clause are unchanged. |
| QueryBuilder.SelectQueryBuilder.OrderBy | src/Query/Select/SelectQueryBuilder.php:207-212 | The new state is `QueryModel.OrderBy` of the old state. |
| QueryModel.Limit | src/Query/Select/SelectQueryBuilder.php:214-219 | `limit` stores its argument unchecked (negative values included); nothing else changes. |
| QueryBuilder.SelectQueryBuilder.Limit | src/Query/Select/SelectQueryBuilder.php:214-219 | The new state is `QueryModel.Limit` of the old state, and `getLimit` returns exactly the argument. |
| QueryModel.Offset | src/Query/Select/SelectQueryBuilder.php:221-226 | `offset` stores its argument unchecked; nothing else changes. |
| QueryBuilder.SelectQueryBuilder.Offset | src/Query/Select/SelectQueryBuilder.php:221-226 | The new state is `QueryModel.Offset` of the old state, and `getOffset` returns exactly the argument. |
| QueryBuilder.SelectQueryBuilder.GetSelect | src/Query/Select/SelectQueryBuilder.php:245-248 | Returns exactly the field list, the `select` clause of the recorded state. |
| QueryBuilder.SelectQueryBuilder.IsDistinct | src/Query/Select/SelectQueryBuilder.php:250-253 | Returns exactly the distinct flag, the `distinct` clause of the recorded state. |
| QueryBuilder.SelectQueryBuilder.GetFrom | src/Query/Select/SelectQueryBuilder.php:255-258 | Returns exactly the from clause, the `from` clause of the recorded state. |
| QueryBuilder.SelectQueryBuilder.GetAggregate | src/Query/Select/SelectQueryBuilder.php:260-263 | Returns exactly the aggregate list, the `aggregate` clause of the recorded state. |
| QueryBuilder.SelectQueryBuilder.GetJoins | src/Query/Select/SelectQueryBuilder.php:265-268 | Returns exactly the join list, "on" entries included, the `join` clause of the recorded state. |
| QueryBuilder.SelectQueryBuilder.GetWhere | src/Query/Select/SelectQueryBuilder.php:270-273 | Returns exactly the where conditions, the `where` clause of the recorded state. |
| QueryBuilder.SelectQueryBuilder.GetGroupBy | src/Query/Select/SelectQueryBuilder.php:275-278 | Returns exactly the group-by list, the `groupBy` clause of the recorded state. |
| QueryBuilder.SelectQueryBuilder.GetHaving | src/Query/Select/SelectQueryBuilder.php:280-283 | Returns exactly the having conditions, the `having` clause of the recorded state. |
| QueryBuilder.SelectQueryBuilder.GetOrderBy | src/Query/Select/SelectQueryBuilder.php:285-288 | Returns exactly the order-by list, the `orderBy` clause of the recorded state. |
| QueryBuilder.SelectQueryBuilder.GetLimit | src/Query/Select/SelectQueryBuilder.php:290-296 | Returns exactly the stored limit, the `limit` clause of the recorded state. |
| QueryBuilder.SelectQueryBuilder.GetOffset | src/Query/Select/SelectQueryBuilder.php:298-304 | Returns exactly the stored offset, the `offset` clause of the recorded state. |
| QueryBuilder.SelectQueryBuilder.GetUnion | src/Query/Select/SelectQueryBuilder.php:306-309 | Returns exactly the union list, the `union` clause of the recorded state. |
| QueryModel.ApplyKeepsUnionAndAggregate | src/Query/Select/SelectQueryBuilder.php:90-226 | No mutator, whatever its arguments, changes the union or aggregate clause. |
| QueryModel.UnionAndAggregateStayEmpty | src/Query/Select/SelectQueryBuilder.php:260-309 | After any chain of mutator calls on a new builder, `getUnion()` and `getAggregate()` are still empty. |
| Relationships.NonNullIdsMembers | src/Model/Relationship/AbstractRelationship.php:28-41 | An id is collected exactly when some parent has it as its id, so null ids are never collected. |
| Relationships.NonNullIdsConcat | src/Model/Relationship/AbstractRelationship.php:30-37 | Collecting ids over `a + b` gives the ids of `a` followed by those of `b`, so entity order is kept. |
| Relationships.GetWhereCondition | src/Model/Relationship/AbstractRelationship.php:28-41 | The loop builds one `inValues` node on the foreign key with the prefix. The node holds exactly the non-null parent ids, in entity order. |
| Relationships.EntityMapForOneLastWins | src/Model/Relationship/AbstractRelationship.php:117-129 | The index for one has exactly the keys present in the rows; rows with an unset or null key are skipped. Each key maps to the last row carrying it. |
| Relationships.EntityMapForManyGroups | src/Model/Relationship/AbstractRelationship.php:131-143 | Each key of the index for many maps to all rows carrying that key, in arrival order, and never to an empty list. A key absent from the index is carried by no row. |
| Relationships.OneIsLastOfMany | src/Model/Relationship/AbstractRelationship.php:117-143 | Both indexes have the same keys. The row the index for one keeps is the last row of the group for many. |
| Relationships.EntityMapForManyTotal | src/Model/Relationship/AbstractRelationship.php:131-143 | The lengths of all groups add up to the number of rows whose key field is set. |
| Relationships.GetEntityMapForOne | src/Model/Relationship/AbstractRelationship.php:117-129 | The loop builds the index for one. Its domain is exactly the keys present, and the last row wins. |
| Relationships.GetEntityMapForMany | src/Model/Relationship/AbstractRelationship.php:131-143 | The loop builds the index for many. Each key has its rows in order, and the total length is the number of keyed rows. |
| Relationships.InsertOne | src/Model/Relationship/AbstractRelationship.php:43-70 | The result keeps every index. A parent without a match, or whose field is unset or null, is unchanged. A matched parent gains exactly the relationship name, holding its related row, and its other fields are equal. |
| Relationships.InsertMany | src/Model/Relationship/AbstractRelationship.php:72-101 | As `InsertOne`, but a matched parent receives its whole ordered group. Unmatched parents never gain the relationship name. |
| Relationships.InsertManyAttachesGroups | src/Model/Relationship/AbstractRelationship.php:72-101 | With the index for many, a matched parent receives exactly the related rows whose foreign key equals its key, in order. |
| Relationships.RegisterRelated | src/Model/Relationship/AbstractRelationship.php:145-169 | `addToEntityMap` leaves the identity map unchanged when the related id is null. Otherwise it adds that id to the related table's known ids and adds the edge (parent table, parent id, name) to (related table, related id). The parent id is used unchecked, and nothing else changes. |
| Relationships.AddToEntityMap | src/Model/Relationship/AbstractRelationship.php:145-169 | The identity map's new state is `RegisterRelated` of its old state. |
| Relationships.RegisterRowsGrows | src/Model/Relationship/AbstractRelationship.php:95-97 | Registering the rows of one parent only adds known ids and links. |
| Relationships.RegisterAllGrows | src/Model/Relationship/AbstractRelationship.php:83-98 | Registering all parents only adds known ids and links. |
| Relationships.RegisterRowsComplete | src/Model/Relationship/AbstractRelationship.php:95-97 | Every row of a parent's group with a non-null id is afterwards known and linked from that parent. |
| Relationships.RegisterRowsSound | src/Model/Relationship/AbstractRelationship.php:95-97 | Every link the rows of one parent add comes from a row with a non-null id, under that parent's edge key. |
| Relationships.RegisterRowsUntouched | src/Model/Relationship/AbstractRelationship.php:95-97 | Registering the rows of one parent leaves every other edge key's links unchanged. |
| Relationships.RegisterAllComplete | src/Model/Relationship/AbstractRelationship.php:83-98 | After all parents are registered, every attached row with a non-null id is known and linked from its parent. |
| Relationships.RegisterAllUntouched | src/Model/Relationship/AbstractRelationship.php:83-98 | An edge key that belongs to no parent with attached rows keeps exactly its links. |
| Relationships.RegisterAllSound | src/Model/Relationship/AbstractRelationship.php:83-98 | Every link added while registering comes from some attached row with a non-null id of some parent. |
| Relationships.InsertManyRegistersEdges | src/Model/Relationship/AbstractRelationship.php:83-98 | After `insertManyRelationship`, every matched parent is linked to each row of its group that has a non-null id. No edge is added for an unmatched parent. |
| Relationships.InsertOneRegistersEdges | src/Model/Relationship/AbstractRelationship.php:54-67 | After `insertOneRelationship`, every matched parent is linked to its related row when that row's id is non-null. No edge is added for an unmatched parent. |
| Relationships.InsertOneRelationship | src/Model/Relationship/AbstractRelationship.php:43-70 | The loop returns `InsertOne` over the index for one. The identity map ends as all matched pairs registered in parent order. |
| Relationships.InsertManyRelationship | src/Model/Relationship/AbstractRelationship.php:72-101 | The nested loops return `InsertMany` over the index for many. The identity map ends as every matched group registered row by row, in parent order. |
| Relationships.SetRelatedIds | src/Model/Relationship/AbstractRelationship.php:106-115 | The identity map's new state is `SetRelatedIdsIn` of its old state, keyed by the parent model's table and id and the related model's table. |
| Relationships.NullParentMatchesEmptyForeignKeyAsWritten | src/Model/Relationship/AbstractRelationship.php:56-60 | A parent whose field is null is matched, as written, to a related row whose foreign key is the empty string. The corrected lookup leaves such a parent unchanged. |
| Relationships.NullParentMatchesEmptyGroupAsWritten | src/Model/Relationship/AbstractRelationship.php:85-97 | A parent whose field is null is matched, as written, to the group of related rows whose foreign key is the empty string. The corrected lookup leaves such a parent unchanged and registers nothing in the identity map. |
| IdentityMaps.AddIdTo | src/Model/Relationship/AbstractRelationship.php:159 | `addId` adds one id to one table's known ids and changes nothing else. |
| IdentityMaps.AddRelatedIdTo | src/Model/Relationship/AbstractRelationship.php:162-168 | `addRelatedId` adds one link under one edge key and changes nothing else. |
| IdentityMaps.LinksTo | src/Model/Relationship/AbstractRelationship.php:108-114 | A pair is among the recorded links exactly when its table is the related table and its id is among the given ids. |
| IdentityMaps.SetRelatedIdsIn | src/Model/Relationship/AbstractRelationship.php:108-114 | `setRelatedIds` replaces one edge key's links with exactly the given ids under the related table. Every other edge key and the known ids are unchanged. |
| IdentityMaps.AddIdIdempotent | src/Model/Relationship/AbstractRelationship.php:159 | Adding an id that was just added changes nothing. |
| IdentityMaps.AddsGrow | src/Model/Relationship/AbstractRelationship.php:159-168 | `addId` and `addRelatedId` only grow the identity map. |
| IdentityMaps.IdentityMap.AddId | src/Model/Relationship/AbstractRelationship.php:159 | The new state is `AddIdTo` of the old state. |
| IdentityMaps.IdentityMap.AddRelatedId | src/Model/Relationship/AbstractRelationship.php:162-168 | The new state is `AddRelatedIdTo` of the old state. |
| IdentityMaps.IdentityMap.SetRelatedIds | src/Model/Relationship/AbstractRelationship.php:108-114 | The new state is `SetRelatedIdsIn` of the old state. |
| HasMany.HasManyRelationship.constructor | src/Model/Relationship/HasManyRelationship.php:30-35 | `getRelatedModel`, `getForeignKey` and `getReferencedKey` return exactly the constructor arguments. |
| HasMany.HasManyRelationship.MatchEntities | src/Model/Relationship/HasManyRelationship.php:66-69 | `matchEntities` returns the parents unchanged, whatever the related rows. |
| HasMany.RelationshipQuery | src/Model/Relationship/HasManyRelationship.php:43-63 | The query has:<br>- a field list that is the single entry `` `<related table>`.* ``;<br>- a "table" source, the related table with an empty alias;<br>- exactly two join entries: the parent table (empty alias and type), then one "on" entry whose single node is `referencedKey = foreignKey`, parent table on the left and related table on the right;<br>- a where clause equal to the one `getWhereCondition` builds: one `IN` node on the given column and prefix with connector "and", listing the parents' non-null ids in parent order, duplicates included.<br>Every other clause is initial. |
| HasMany.HasManyRelationship.GetRelationship | src/Model/Relationship/HasManyRelationship.php:37-64 | The returned builder is new, and its state is `RelationshipQuery` for the given parents, with the related model resolved through the container. |

## Left out

- `execute`, `getSql` and `getParams` are left out: they call a driver translator and a database connection that are not shown. The connection field and the `params` field are left out with them.
- The internals of the condition builder are left out; its class is not part of this model. A condition builder is an ordered list of nodes, with connector "and" wherever the caller passes none. Nothing is rendered to SQL.
- The identity map class is not part of this model either. Its `addId`, `addRelatedId` and `setRelatedIds` are given the meaning of adding to a set and replacing a set.
- Closures are functions from the conditions (or the query) they receive to the conditions (or query) they leave. An exception thrown inside a callback is not modelled.
- A closure that keeps its builder and changes it after the call is not modelled: the model stores the builder's contents by value, not by reference.
- `QueryModel.On`: calling `on()` with no closure (the default `null`) fails in PHP; the model always takes a callback.
- PHP array-key coercion is not modelled: numeric strings becoming integer keys, and floats and booleans becoming keys. Keys are an abstract integer-or-string type.
- Relationships.GetEntityMapForOne: a key field that holds an array or a nested row is treated as holding no key and the row is skipped. PHP reports an illegal offset in that case.
- Relationships.GetEntityMapForMany: the same for its key field; the row is skipped where PHP reports an illegal offset.
- Relationships.MatchOne: a parent field that holds an array or a nested row is treated as no key, so the parent is unmatched. PHP reports an illegal offset in that lookup.
- Relationships.MatchMany: the same for the lookup in `insertManyRelationship`.
- The model container lookup and `ModelInterface::getTable`/`getId` are given pure functions: a `Model` value holding the table and an id function, and a container from names to models.
- The `AbstractRelationship` constructor and `getParentModel` are not modelled on their own: the parent model is passed explicitly to every operation.
- HasMany.HasManyRelationship.GetRelationship: follows the three-argument `getWhereCondition` and the parent model argument rather than the two-argument call as written, which PHP would reject.
- The `examples/index.php` demo script is left out; it is environment reads, connection setup and output.

## Findings

| source | as written | input that shows it | evidently intended | confidence | as-written member | corrected member |
|---|---|---|---|---|---|---|
| src/Model/Relationship/AbstractRelationship.php:56-60 | `$relatedEntityMap[$entity[$field]]` reads a null (or missing) parent field as the array key `""`. | A parent whose field is null, and one related row whose foreign key is the empty string: the parent receives that row. | A parent whose field is unset or null has no match and is left unchanged, just as rows with an unset key are skipped when indexing. | medium, not executed | Relationships.NullParentMatchesEmptyForeignKeyAsWritten | Relationships.InsertOne |
| src/Model/Relationship/AbstractRelationship.php:85-97 | `$relatedEntityMap[$entity[$field]]` in `insertManyRelationship` reads a null (or missing) parent field as the array key `""`. | A parent whose field is null, and one related row whose foreign key is the empty string: the parent receives that row as its group, and the row is registered in the identity map. | A parent whose field is unset or null has no group, is left unchanged, and no edge is added for it. | medium, not executed | Relationships.NullParentMatchesEmptyGroupAsWritten | Relationships.InsertMany |
