/**
 The row-matching core shared by every relationship (`AbstractRelationship`):
 collecting the parent ids for the batched query, indexing the related rows
 by foreign key, attaching them to the parents, and recording what was
 attached in the identity map.

 Each `foreach` of the source is a method with a loop, proved against a
 specification function; the properties the source promises are lemmas
 about those functions. `$this->parentModel` is passed explicitly as
 `parentModel`.
 */
module Relationships {
  import opened Values
  import opened Conditions
  import opened IdentityMaps

  // =====================================================================
  // Sequences filtered by a predicate (reference definitions)

  /** The elements of `rows` that satisfy `keep`, in their original order. */
  function Filter(rows: seq<Entity>, keep: Entity -> bool): (r: seq<Entity>)
    ensures |r| <= |rows|
    ensures forall e :: e in r ==> e in rows && keep(e)
    decreases |rows|
  {
    if rows == [] then []
    else (if keep(rows[0]) then [rows[0]] else []) + Filter(rows[1..], keep)
  }

  lemma {:induction false} FilterSnoc(rows: seq<Entity>, e: Entity, keep: Entity -> bool)
    ensures Filter(rows + [e], keep) == Filter(rows, keep) + (if keep(e) then [e] else [])
    decreases |rows|
  {
    if rows == [] {
      assert [e][1..] == [];
    } else {
      assert (rows + [e])[0] == rows[0];
      assert (rows + [e])[1..] == rows[1..] + [e];
      FilterSnoc(rows[1..], e, keep);
    }
  }

  // =====================================================================
  // getWhereCondition

  /** The non-null parent ids, in entity order. */
  function NonNullIds(parentModel: Model, entities: seq<Entity>): seq<Key>
    decreases |entities|
  {
    if entities == [] then []
    else
      var ids := NonNullIds(parentModel, entities[..|entities| - 1]);
      match parentModel.getId(entities[|entities| - 1])
      case Some(id) => ids + [id]
      case None => ids
  }

  /** Collecting ids distributes over concatenation: the order of the entities is kept. */
  lemma {:induction false} NonNullIdsConcat(parentModel: Model, a: seq<Entity>, b: seq<Entity>)
    ensures NonNullIds(parentModel, a + b) == NonNullIds(parentModel, a) + NonNullIds(parentModel, b)
    decreases |b|
  {
    if b == [] {
      assert a + b == a;
    } else {
      var b' := b[..|b| - 1];
      NonNullIdsConcat(parentModel, a, b');
      assert (a + b)[..|a + b| - 1] == a + b';
      assert (a + b)[|a + b| - 1] == b[|b| - 1];
    }
  }

  /** An id is collected exactly when some entity has it; null ids never are. */
  lemma {:induction false} NonNullIdsMembers(parentModel: Model, entities: seq<Entity>)
    ensures forall id :: id in NonNullIds(parentModel, entities) <==>
              exists i :: 0 <= i < |entities| && parentModel.getId(entities[i]) == Some(id)
    decreases |entities|
  {
    if entities != [] {
      var n := |entities|;
      var init := entities[..n - 1];
      NonNullIdsMembers(parentModel, init);
      forall id
        ensures id in NonNullIds(parentModel, entities) <==>
                exists i :: 0 <= i < n && parentModel.getId(entities[i]) == Some(id)
      {
        if id in NonNullIds(parentModel, entities) {
          if id in NonNullIds(parentModel, init) {
            var i :| 0 <= i < n - 1 && parentModel.getId(init[i]) == Some(id);
            assert entities[i] == init[i];
          } else {
            assert parentModel.getId(entities[n - 1]) == Some(id);
          }
        }
        if exists i :: 0 <= i < n && parentModel.getId(entities[i]) == Some(id) {
          var i :| 0 <= i < n && parentModel.getId(entities[i]) == Some(id);
          if i < n - 1 {
            assert init[i] == entities[i];
          }
        }
      }
    }
  }

  /**
   The condition `getWhereCondition` builds: one `inValues` node over the
   non-null parent ids. With no non-null id the list is empty, and the node
   is still there.
   */
  function WhereCondition(parentModel: Model, prefix: string, foreignKey: string,
                          entities: seq<Entity>): Conditions
  {
    [InValues(foreignKey, NonNullIds(parentModel, entities), prefix, DefaultConnector)]
  }

  /** `getWhereCondition`: collects the ids in a loop into a fresh condition builder. */
  method GetWhereCondition(parentModel: Model, prefix: string, foreignKey: string,
                           entities: seq<Entity>)
    returns (condition: Conditions)
    ensures condition == WhereCondition(parentModel, prefix, foreignKey, entities)
    ensures forall id :: id in condition[0].values <==>
              exists i :: 0 <= i < |entities| && parentModel.getId(entities[i]) == Some(id)
  {
    var values: seq<Key> := [];
    for i := 0 to |entities|
      invariant values == NonNullIds(parentModel, entities[..i])
    {
      assert entities[..i + 1][..i] == entities[..i];
      var id := parentModel.getId(entities[i]);
      if id.Some? {
        values := values + [id.value];
      }
    }
    assert entities[..|entities|] == entities;
    NonNullIdsMembers(parentModel, entities);
    condition := [InValues(foreignKey, values, prefix, DefaultConnector)];
  }

  // =====================================================================
  // getEntityMapForOne / getEntityMapForMany

  /** Row `i` of `rows` carries key `k` in `field`. */
  predicate HasKeyAt(rows: seq<Entity>, field: string, i: int, k: Key)
  {
    0 <= i < |rows| && KeyOf(Field(rows[i], field)) == Some(k)
  }

  /** Related rows indexed by foreign key; a later row replaces an earlier one. */
  function EntityMapForOne(rows: seq<Entity>, field: string): map<Key, Entity>
    decreases |rows|
  {
    if rows == [] then map[]
    else
      var m := EntityMapForOne(rows[..|rows| - 1], field);
      var e := rows[|rows| - 1];
      match KeyOf(Field(e, field))
      case Some(k) => m[k := e]
      case None => m
  }

  /** Related rows grouped by foreign key, each group in arrival order. */
  function EntityMapForMany(rows: seq<Entity>, field: string): map<Key, seq<Entity>>
    decreases |rows|
  {
    if rows == [] then map[]
    else
      var m := EntityMapForMany(rows[..|rows| - 1], field);
      var e := rows[|rows| - 1];
      match KeyOf(Field(e, field))
      case Some(k) => m[k := (if k in m then m[k] else []) + [e]]
      case None => m
  }

  /** The rows that carry key `k` in `field`, in order. */
  function RowsWithKey(rows: seq<Entity>, field: string, k: Key): seq<Entity>
  {
    Filter(rows, e => KeyOf(Field(e, field)) == Some(k))
  }

  lemma RowsWithKeySnoc(rows: seq<Entity>, e: Entity, field: string, k: Key)
    ensures RowsWithKey(rows + [e], field, k)
         == RowsWithKey(rows, field, k) + (if KeyOf(Field(e, field)) == Some(k) then [e] else [])
  {
    FilterSnoc(rows, e, e' => KeyOf(Field(e', field)) == Some(k));
  }

  /** The rows whose `field` holds a key at all, in order. */
  function KeyedRows(rows: seq<Entity>, field: string): seq<Entity>
  {
    Filter(rows, e => KeyOf(Field(e, field)).Some?)
  }

  /**
   The index for one: its keys are exactly the keys present in the rows, and
   each key maps to the LAST row carrying it.
   */
  lemma {:induction false} EntityMapForOneLastWins(rows: seq<Entity>, field: string)
    ensures forall k :: k in EntityMapForOne(rows, field) <==> exists i :: HasKeyAt(rows, field, i, k)
    ensures forall k :: k in EntityMapForOne(rows, field) ==>
              exists i :: HasKeyAt(rows, field, i, k) && EntityMapForOne(rows, field)[k] == rows[i]
                          && forall j :: i < j < |rows| ==> !HasKeyAt(rows, field, j, k)
    decreases |rows|
  {
    if rows != [] {
      var n := |rows|;
      var init := rows[..n - 1];
      var m := EntityMapForOne(init, field);
      var m' := EntityMapForOne(rows, field);
      EntityMapForOneLastWins(init, field);
      assert forall i, k :: HasKeyAt(init, field, i, k) <==> i < n - 1 && HasKeyAt(rows, field, i, k) by {
        forall i, k ensures HasKeyAt(init, field, i, k) <==> i < n - 1 && HasKeyAt(rows, field, i, k) {
          if 0 <= i < n - 1 {
            assert init[i] == rows[i];
          }
        }
      }
      forall k | k in m'
        ensures exists i :: HasKeyAt(rows, field, i, k) && m'[k] == rows[i]
                            && forall j :: i < j < n ==> !HasKeyAt(rows, field, j, k)
      {
        if HasKeyAt(rows, field, n - 1, k) {
          assert m'[k] == rows[n - 1];
        } else {
          assert k in m && m'[k] == m[k];
          var i :| HasKeyAt(init, field, i, k) && m[k] == init[i]
                   && forall j :: i < j < n - 1 ==> !HasKeyAt(init, field, j, k);
          assert HasKeyAt(rows, field, i, k) && m'[k] == rows[i];
        }
      }
    }
  }

  /**
   The index for many: its keys are the keys present in the rows, and each
   key maps to all rows carrying it, in arrival order (never to an empty list).
   */
  lemma {:induction false} EntityMapForManyGroups(rows: seq<Entity>, field: string)
    ensures forall k :: k in EntityMapForMany(rows, field) ==>
              EntityMapForMany(rows, field)[k] == RowsWithKey(rows, field, k)
              && EntityMapForMany(rows, field)[k] != []
    ensures forall k :: k !in EntityMapForMany(rows, field) ==> RowsWithKey(rows, field, k) == []
    decreases |rows|
  {
    if rows == [] {
    } else {
      var n := |rows|;
      var init := rows[..n - 1];
      var e := rows[n - 1];
      assert rows == init + [e];
      EntityMapForManyGroups(init, field);
      forall k
        ensures k in EntityMapForMany(rows, field) ==>
                  EntityMapForMany(rows, field)[k] == RowsWithKey(rows, field, k)
                  && EntityMapForMany(rows, field)[k] != []
        ensures k !in EntityMapForMany(rows, field) ==> RowsWithKey(rows, field, k) == []
      {
        RowsWithKeySnoc(init, e, field, k);
      }
    }
  }

  /** Both indexes have the same keys; the row kept for one is the last of the group for many. */
  lemma {:induction false} OneIsLastOfMany(rows: seq<Entity>, field: string)
    ensures EntityMapForOne(rows, field).Keys == EntityMapForMany(rows, field).Keys
    ensures forall k :: k in EntityMapForOne(rows, field) ==>
              var group := EntityMapForMany(rows, field)[k];
              group != [] && EntityMapForOne(rows, field)[k] == group[|group| - 1]
    decreases |rows|
  {
    if rows != [] {
      OneIsLastOfMany(rows[..|rows| - 1], field);
    }
  }

  /** The sum of the lengths of the lists a map holds. */
  ghost function TotalLength(m: map<Key, seq<Entity>>): nat
    decreases |m.Keys|
  {
    if m == map[] then 0
    else
      var k :| k in m;
      |m[k]| + TotalLength(m - {k})
  }

  lemma {:induction false} TotalLengthRemove(m: map<Key, seq<Entity>>, k: Key)
    requires k in m
    ensures TotalLength(m) == |m[k]| + TotalLength(m - {k})
    decreases |m.Keys|
  {
    var k' :| k' in m && TotalLength(m) == |m[k']| + TotalLength(m - {k'});
    if k' != k {
      assert (m - {k'}).Keys == m.Keys - {k'};
      assert (m - {k}).Keys == m.Keys - {k};
      TotalLengthRemove(m - {k'}, k);
      TotalLengthRemove(m - {k}, k');
      assert (m - {k'}) - {k} == (m - {k}) - {k'};
    }
  }

  lemma TotalLengthAppend(m: map<Key, seq<Entity>>, k: Key, e: Entity)
    ensures TotalLength(m[k := (if k in m then m[k] else []) + [e]]) == TotalLength(m) + 1
  {
    var m' := m[k := (if k in m then m[k] else []) + [e]];
    TotalLengthRemove(m', k);
    if k in m {
      TotalLengthRemove(m, k);
      assert m' - {k} == m - {k};
    } else {
      assert m' - {k} == m;
    }
  }

  /**
   Every row whose foreign key is set lands in exactly one group: the
   groups' lengths add up to the number of such rows.
   */
  lemma {:induction false} EntityMapForManyTotal(rows: seq<Entity>, field: string)
    ensures TotalLength(EntityMapForMany(rows, field)) == |KeyedRows(rows, field)|
    decreases |rows|
  {
    if rows != [] {
      var n := |rows|;
      var init := rows[..n - 1];
      var e := rows[n - 1];
      assert rows == init + [e];
      EntityMapForManyTotal(init, field);
      FilterSnoc(init, e, e' => KeyOf(Field(e', field)).Some?);
      var m := EntityMapForMany(init, field);
      match KeyOf(Field(e, field))
      case Some(k) =>
        TotalLengthAppend(m, k, e);
      case None =>
    }
  }

  method GetEntityMapForOne(entities: seq<Entity>, field: string)
    returns (entityMap: map<Key, Entity>)
    ensures entityMap == EntityMapForOne(entities, field)
    ensures forall k :: k in entityMap <==> exists i :: HasKeyAt(entities, field, i, k)
    ensures forall k :: k in entityMap ==>
              exists i :: HasKeyAt(entities, field, i, k) && entityMap[k] == entities[i]
                          && forall j :: i < j < |entities| ==> !HasKeyAt(entities, field, j, k)
  {
    entityMap := map[];
    for i := 0 to |entities|
      invariant entityMap == EntityMapForOne(entities[..i], field)
    {
      assert entities[..i + 1][..i] == entities[..i];
      var entity := entities[i];
      if IsSet(entity, field) {
        var key := KeyOf(entity[field]);
        if key.Some? {
          entityMap := entityMap[key.value := entity];
        }
      }
    }
    assert entities[..|entities|] == entities;
    EntityMapForOneLastWins(entities, field);
  }

  method GetEntityMapForMany(entities: seq<Entity>, field: string)
    returns (entityMap: map<Key, seq<Entity>>)
    ensures entityMap == EntityMapForMany(entities, field)
    ensures forall k :: k in entityMap ==> entityMap[k] == RowsWithKey(entities, field, k)
    ensures forall k :: k !in entityMap ==> RowsWithKey(entities, field, k) == []
    ensures TotalLength(entityMap) == |KeyedRows(entities, field)|
  {
    entityMap := map[];
    for i := 0 to |entities|
      invariant entityMap == EntityMapForMany(entities[..i], field)
    {
      assert entities[..i + 1][..i] == entities[..i];
      var entity := entities[i];
      if IsSet(entity, field) {
        var key := KeyOf(entity[field]);
        if key.Some? {
          var k := key.value;
          entityMap := entityMap[k := (if k in entityMap then entityMap[k] else []) + [entity]];
        }
      }
    }
    assert entities[..|entities|] == entities;
    EntityMapForManyGroups(entities, field);
    EntityMapForManyTotal(entities, field);
  }

  // =====================================================================
  // insertOneRelationship / insertManyRelationship: attaching rows to parents

  /** The key a parent is looked up by: its `field`, when that holds a key. */
  function ParentKey(e: Entity, field: string): Option<Key>
  {
    KeyOf(Field(e, field))
  }

  /** The related row indexed under the parent's key, if any. */
  function MatchOne(e: Entity, field: string, relatedMap: map<Key, Entity>): Option<Entity>
  {
    match ParentKey(e, field)
    case Some(k) => if k in relatedMap then Some(relatedMap[k]) else None
    case None => None
  }

  /** The group of related rows indexed under the parent's key, if any. */
  function MatchMany(e: Entity, field: string, relatedMap: map<Key, seq<Entity>>): Option<seq<Entity>>
  {
    match ParentKey(e, field)
    case Some(k) => if k in relatedMap then Some(relatedMap[k]) else None
    case None => None
  }

  function AttachOne(e: Entity, relationshipName: string, relatedMap: map<Key, Entity>,
                     field: string): Entity
  {
    match MatchOne(e, field, relatedMap)
    case Some(related) => e[relationshipName := Row(related)]
    case None => e
  }

  function AttachMany(e: Entity, relationshipName: string, relatedMap: map<Key, seq<Entity>>,
                      field: string): Entity
  {
    match MatchMany(e, field, relatedMap)
    case Some(related) => e[relationshipName := Rows(related)]
    case None => e
  }

  /**
   The parents after one related row has been attached to each parent that
   has a match. Indices are kept; an unmatched parent (no key, a null key or
   no row under its key) is unchanged; a matched one differs only at
   `relationshipName`, which holds its related row.
   */
  function InsertOne(entities: seq<Entity>, relationshipName: string,
                     relatedMap: map<Key, Entity>, field: string): (r: seq<Entity>)
    ensures |r| == |entities|
    ensures forall i :: 0 <= i < |entities| && MatchOne(entities[i], field, relatedMap).None? ==>
              r[i] == entities[i]
    ensures forall i :: 0 <= i < |entities| && !IsSet(entities[i], field) ==> r[i] == entities[i]
    ensures forall i :: 0 <= i < |entities| && MatchOne(entities[i], field, relatedMap).Some? ==>
              && r[i].Keys == entities[i].Keys + {relationshipName}
              && r[i][relationshipName] == Row(MatchOne(entities[i], field, relatedMap).value)
              && forall f :: f in entities[i] && f != relationshipName ==> r[i][f] == entities[i][f]
  {
    seq(|entities|, i requires 0 <= i < |entities| =>
      AttachOne(entities[i], relationshipName, relatedMap, field))
  }

  /**
   As `InsertOne`, but a matched parent receives the whole ordered group of
   related rows under its key; unmatched parents never gain the key.
   */
  function InsertMany(entities: seq<Entity>, relationshipName: string,
                      relatedMap: map<Key, seq<Entity>>, field: string): (r: seq<Entity>)
    ensures |r| == |entities|
    ensures forall i :: 0 <= i < |entities| && MatchMany(entities[i], field, relatedMap).None? ==>
              r[i] == entities[i]
    ensures forall i :: 0 <= i < |entities| && !IsSet(entities[i], field) ==> r[i] == entities[i]
    ensures forall i :: 0 <= i < |entities| && MatchMany(entities[i], field, relatedMap).Some? ==>
              && r[i].Keys == entities[i].Keys + {relationshipName}
              && r[i][relationshipName] == Rows(MatchMany(entities[i], field, relatedMap).value)
              && forall f :: f in entities[i] && f != relationshipName ==> r[i][f] == entities[i][f]
  {
    seq(|entities|, i requires 0 <= i < |entities| =>
      AttachMany(entities[i], relationshipName, relatedMap, field))
  }

  /**
   Attaching groups from the index for many puts under each matched parent
   exactly the related rows whose foreign key equals the parent's key, in order.
   */
  lemma InsertManyAttachesGroups(entities: seq<Entity>, relationshipName: string,
                                 relatedRows: seq<Entity>, foreignKey: string, field: string)
    ensures var r := InsertMany(entities, relationshipName, EntityMapForMany(relatedRows, foreignKey), field);
            forall i :: 0 <= i < |entities| && ParentKey(entities[i], field).Some? ==>
              var rows := RowsWithKey(relatedRows, foreignKey, ParentKey(entities[i], field).value);
              (rows == [] ==> r[i] == entities[i])
              && (rows != [] ==> relationshipName in r[i] && r[i][relationshipName] == Rows(rows))
  {
    EntityMapForManyGroups(relatedRows, foreignKey);
  }

  // =====================================================================
  // addToEntityMap and the identity-map effect of the insert loops

  /**
   `addToEntityMap`: nothing when the related row's id is null; otherwise
   its id becomes known for the related table and the edge
   (parent table, parent id, name) -> (related table, related id) is added.
   The parent id is used as it is, null or not.
   */
  function RegisterRelated(s: IdState, parentModel: Model, entity: Entity, relationshipName: string,
                           relatedModel: Model, relatedEntity: Entity): (r: IdState)
    ensures relatedModel.getId(relatedEntity).None? ==> r == s
    ensures relatedModel.getId(relatedEntity).Some? ==>
              var rid := relatedModel.getId(relatedEntity).value;
              var k := (parentModel.table, parentModel.getId(entity), relationshipName);
              && KnownIds(r, relatedModel.table) == KnownIds(s, relatedModel.table) + {rid}
              && (forall t :: t != relatedModel.table ==> KnownIds(r, t) == KnownIds(s, t))
              && EdgesAt(r, k) == EdgesAt(s, k) + {(relatedModel.table, rid)}
              && (forall k' :: k' != k ==> EdgesAt(r, k') == EdgesAt(s, k'))
  {
    match relatedModel.getId(relatedEntity)
    case None => s
    case Some(rid) =>
      AddRelatedIdTo(AddIdTo(s, relatedModel.table, rid), parentModel.table,
                     parentModel.getId(entity), relationshipName, relatedModel.table, rid)
  }

  /** `addToEntityMap` for each related row of one parent, in order. */
  function RegisterRows(s: IdState, parentModel: Model, entity: Entity, relationshipName: string,
                        relatedModel: Model, rows: seq<Entity>): IdState
    decreases |rows|
  {
    if rows == [] then s
    else RegisterRelated(RegisterRows(s, parentModel, entity, relationshipName, relatedModel,
                                      rows[..|rows| - 1]),
                         parentModel, entity, relationshipName, relatedModel, rows[|rows| - 1])
  }

  /** `RegisterRows` for each parent in turn; `lists[i]` is what parent `i` had attached. */
  function RegisterAll(s: IdState, parentModel: Model, entities: seq<Entity>,
                       lists: seq<seq<Entity>>, relationshipName: string,
                       relatedModel: Model): IdState
    requires |lists| == |entities|
    decreases |entities|
  {
    if entities == [] then s
    else
      var n := |entities| - 1;
      RegisterRows(RegisterAll(s, parentModel, entities[..n], lists[..n], relationshipName,
                               relatedModel),
                   parentModel, entities[n], relationshipName, relatedModel, lists[n])
  }

  /** What `insertOneRelationship` registers per parent: its match, or nothing. */
  function OneLists(entities: seq<Entity>, field: string, relatedMap: map<Key, Entity>)
    : (lists: seq<seq<Entity>>)
    ensures |lists| == |entities|
  {
    seq(|entities|, i requires 0 <= i < |entities| =>
      match MatchOne(entities[i], field, relatedMap)
      case Some(related) => [related]
      case None => [])
  }

  /** What `insertManyRelationship` registers per parent: its group, or nothing. */
  function ManyLists(entities: seq<Entity>, field: string, relatedMap: map<Key, seq<Entity>>)
    : (lists: seq<seq<Entity>>)
    ensures |lists| == |entities|
  {
    seq(|entities|, i requires 0 <= i < |entities| =>
      match MatchMany(entities[i], field, relatedMap)
      case Some(related) => related
      case None => [])
  }

  /**
   Row `j` attached to parent `i` has a non-null id, and registering it
   adds link `l` under edge key `k`.
   */
  ghost predicate Registers(parentModel: Model, entities: seq<Entity>, lists: seq<seq<Entity>>,
                            relationshipName: string, relatedModel: Model,
                            i: int, j: int, k: EdgeKey, l: Link)
  {
    && 0 <= i < |entities| && i < |lists| && 0 <= j < |lists[i]|
    && relatedModel.getId(lists[i][j]).Some?
    && k == (parentModel.table, parentModel.getId(entities[i]), relationshipName)
    && l == (relatedModel.table, relatedModel.getId(lists[i][j]).value)
  }

  lemma {:induction false} RegisterRowsGrows(s: IdState, parentModel: Model, entity: Entity,
                                             relationshipName: string, relatedModel: Model,
                                             rows: seq<Entity>)
    ensures Grows(s, RegisterRows(s, parentModel, entity, relationshipName, relatedModel, rows))
    decreases |rows|
  {
    if rows != [] {
      RegisterRowsGrows(s, parentModel, entity, relationshipName, relatedModel, rows[..|rows| - 1]);
    }
  }

  /** The identity map only grows while relationships are registered. */
  lemma {:induction false} RegisterAllGrows(s: IdState, parentModel: Model, entities: seq<Entity>,
                                            lists: seq<seq<Entity>>, relationshipName: string,
                                            relatedModel: Model)
    requires |lists| == |entities|
    ensures Grows(s, RegisterAll(s, parentModel, entities, lists, relationshipName, relatedModel))
    decreases |entities|
  {
    if entities != [] {
      var n := |entities| - 1;
      var mid := RegisterAll(s, parentModel, entities[..n], lists[..n], relationshipName, relatedModel);
      RegisterAllGrows(s, parentModel, entities[..n], lists[..n], relationshipName, relatedModel);
      RegisterRowsGrows(mid, parentModel, entities[n], relationshipName, relatedModel, lists[n]);
    }
  }

  /** Every related row of one parent with a non-null id is known and linked afterwards. */
  lemma {:induction false} RegisterRowsComplete(s: IdState, parentModel: Model, entity: Entity,
                                                relationshipName: string, relatedModel: Model,
                                                rows: seq<Entity>)
    ensures var r := RegisterRows(s, parentModel, entity, relationshipName, relatedModel, rows);
            forall j :: 0 <= j < |rows| && relatedModel.getId(rows[j]).Some? ==>
              && relatedModel.getId(rows[j]).value in KnownIds(r, relatedModel.table)
              && (relatedModel.table, relatedModel.getId(rows[j]).value)
                   in EdgesAt(r, (parentModel.table, parentModel.getId(entity), relationshipName))
    decreases |rows|
  {
    if rows != [] {
      var n := |rows| - 1;
      var mid := RegisterRows(s, parentModel, entity, relationshipName, relatedModel, rows[..n]);
      RegisterRowsComplete(s, parentModel, entity, relationshipName, relatedModel, rows[..n]);
      forall j | 0 <= j < n ensures rows[..n][j] == rows[j] { }
    }
  }

  /** Every link that registration adds comes from an attached row with a non-null id. */
  lemma {:induction false} RegisterRowsSound(s: IdState, parentModel: Model, entity: Entity,
                                             relationshipName: string, relatedModel: Model,
                                             rows: seq<Entity>, k: EdgeKey, l: Link)
    requires l in EdgesAt(RegisterRows(s, parentModel, entity, relationshipName, relatedModel, rows), k)
    requires l !in EdgesAt(s, k)
    ensures exists j :: 0 <= j < |rows| && relatedModel.getId(rows[j]).Some?
              && k == (parentModel.table, parentModel.getId(entity), relationshipName)
              && l == (relatedModel.table, relatedModel.getId(rows[j]).value)
    decreases |rows|
  {
    var n := |rows| - 1;
    var mid := RegisterRows(s, parentModel, entity, relationshipName, relatedModel, rows[..n]);
    if l in EdgesAt(mid, k) {
      RegisterRowsSound(s, parentModel, entity, relationshipName, relatedModel, rows[..n], k, l);
      var j :| 0 <= j < n && relatedModel.getId(rows[..n][j]).Some?
               && k == (parentModel.table, parentModel.getId(entity), relationshipName)
               && l == (relatedModel.table, relatedModel.getId(rows[..n][j]).value);
      assert rows[..n][j] == rows[j];
    } else {
      assert relatedModel.getId(rows[n]).Some?;
    }
  }

  /**
   After registering all parents, every attached related row with a non-null
   id is known for the related table and linked from its parent.
   */
  lemma {:induction false} RegisterAllComplete(s: IdState, parentModel: Model, entities: seq<Entity>,
                                               lists: seq<seq<Entity>>, relationshipName: string,
                                               relatedModel: Model)
    requires |lists| == |entities|
    ensures var r := RegisterAll(s, parentModel, entities, lists, relationshipName, relatedModel);
            forall i, j, k, l :: Registers(parentModel, entities, lists, relationshipName, relatedModel,
                                           i, j, k, l) ==>
              l.1 in KnownIds(r, relatedModel.table) && l in EdgesAt(r, k)
    decreases |entities|
  {
    if entities != [] {
      var n := |entities| - 1;
      var mid := RegisterAll(s, parentModel, entities[..n], lists[..n], relationshipName, relatedModel);
      var r := RegisterRows(mid, parentModel, entities[n], relationshipName, relatedModel, lists[n]);
      RegisterAllComplete(s, parentModel, entities[..n], lists[..n], relationshipName, relatedModel);
      RegisterRowsGrows(mid, parentModel, entities[n], relationshipName, relatedModel, lists[n]);
      RegisterRowsComplete(mid, parentModel, entities[n], relationshipName, relatedModel, lists[n]);
      forall i, j, k, l | Registers(parentModel, entities, lists, relationshipName, relatedModel,
                                    i, j, k, l)
        ensures l.1 in KnownIds(r, relatedModel.table) && l in EdgesAt(r, k)
      {
        if i < n {
          assert entities[..n][i] == entities[i] && lists[..n][i] == lists[i];
          assert Registers(parentModel, entities[..n], lists[..n], relationshipName, relatedModel,
                           i, j, k, l);
        }
      }
    }
  }

  lemma {:induction false} RegisterRowsUntouched(s: IdState, parentModel: Model, entity: Entity,
                                                 relationshipName: string, relatedModel: Model,
                                                 rows: seq<Entity>, k: EdgeKey)
    requires k != (parentModel.table, parentModel.getId(entity), relationshipName)
    ensures EdgesAt(RegisterRows(s, parentModel, entity, relationshipName, relatedModel, rows), k)
         == EdgesAt(s, k)
    decreases |rows|
  {
    if rows != [] {
      RegisterRowsUntouched(s, parentModel, entity, relationshipName, relatedModel,
                            rows[..|rows| - 1], k);
    }
  }

  /** An edge key owned by no parent that had rows attached keeps exactly its links. */
  lemma {:induction false} RegisterAllUntouched(s: IdState, parentModel: Model, entities: seq<Entity>,
                                                lists: seq<seq<Entity>>, relationshipName: string,
                                                relatedModel: Model, k: EdgeKey)
    requires |lists| == |entities|
    requires forall i :: 0 <= i < |entities| && lists[i] != [] ==>
               k != (parentModel.table, parentModel.getId(entities[i]), relationshipName)
    ensures EdgesAt(RegisterAll(s, parentModel, entities, lists, relationshipName, relatedModel), k)
         == EdgesAt(s, k)
    decreases |entities|
  {
    if entities != [] {
      var n := |entities| - 1;
      var mid := RegisterAll(s, parentModel, entities[..n], lists[..n], relationshipName, relatedModel);
      forall i | 0 <= i < n && lists[..n][i] != []
        ensures k != (parentModel.table, parentModel.getId(entities[..n][i]), relationshipName)
      {
        assert entities[..n][i] == entities[i] && lists[..n][i] == lists[i];
      }
      RegisterAllUntouched(s, parentModel, entities[..n], lists[..n], relationshipName, relatedModel, k);
      if lists[n] != [] {
        RegisterRowsUntouched(mid, parentModel, entities[n], relationshipName, relatedModel, lists[n], k);
      }
    }
  }

  /** Registration adds no link that no attached row accounts for. */
  lemma {:induction false} RegisterAllSound(s: IdState, parentModel: Model, entities: seq<Entity>,
                                            lists: seq<seq<Entity>>, relationshipName: string,
                                            relatedModel: Model, k: EdgeKey, l: Link)
    requires |lists| == |entities|
    requires l in EdgesAt(RegisterAll(s, parentModel, entities, lists, relationshipName, relatedModel), k)
    requires l !in EdgesAt(s, k)
    ensures exists i, j :: Registers(parentModel, entities, lists, relationshipName, relatedModel,
                                     i, j, k, l)
    decreases |entities|
  {
    var n := |entities| - 1;
    var mid := RegisterAll(s, parentModel, entities[..n], lists[..n], relationshipName, relatedModel);
    if l in EdgesAt(mid, k) {
      RegisterAllSound(s, parentModel, entities[..n], lists[..n], relationshipName, relatedModel, k, l);
      var i, j :| Registers(parentModel, entities[..n], lists[..n], relationshipName, relatedModel,
                            i, j, k, l);
      assert entities[..n][i] == entities[i] && lists[..n][i] == lists[i];
      assert Registers(parentModel, entities, lists, relationshipName, relatedModel, i, j, k, l);
    } else {
      RegisterRowsSound(mid, parentModel, entities[n], relationshipName, relatedModel, lists[n], k, l);
      var j :| 0 <= j < |lists[n]| && relatedModel.getId(lists[n][j]).Some?
               && k == (parentModel.table, parentModel.getId(entities[n]), relationshipName)
               && l == (relatedModel.table, relatedModel.getId(lists[n][j]).value);
      assert Registers(parentModel, entities, lists, relationshipName, relatedModel, n, j, k, l);
    }
  }

  /**
   The identity-map effect of `insertManyRelationship`: for every matched
   parent and every row of its group with a non-null id the edge is present;
   an edge key that belongs to no matched parent keeps exactly its old links.
   */
  lemma InsertManyRegistersEdges(s: IdState, parentModel: Model, entities: seq<Entity>,
                                 relationshipName: string, relatedModel: Model,
                                 relatedMap: map<Key, seq<Entity>>, field: string)
    ensures var r := RegisterAll(s, parentModel, entities, ManyLists(entities, field, relatedMap),
                                 relationshipName, relatedModel);
            && (forall i, j :: (0 <= i < |entities| && MatchMany(entities[i], field, relatedMap).Some?
                  && 0 <= j < |MatchMany(entities[i], field, relatedMap).value|
                  && relatedModel.getId(MatchMany(entities[i], field, relatedMap).value[j]).Some?) ==>
                  (relatedModel.table,
                   relatedModel.getId(MatchMany(entities[i], field, relatedMap).value[j]).value)
                    in EdgesAt(r, (parentModel.table, parentModel.getId(entities[i]), relationshipName)))
            && (forall k :: (forall i :: 0 <= i < |entities| && MatchMany(entities[i], field, relatedMap).Some?
                               ==> k != (parentModel.table, parentModel.getId(entities[i]), relationshipName))
                  ==> EdgesAt(r, k) == EdgesAt(s, k))
  {
    var lists := ManyLists(entities, field, relatedMap);
    var r := RegisterAll(s, parentModel, entities, lists, relationshipName, relatedModel);
    RegisterAllComplete(s, parentModel, entities, lists, relationshipName, relatedModel);
    RegisterAllGrows(s, parentModel, entities, lists, relationshipName, relatedModel);
    forall i, j | 0 <= i < |entities| && MatchMany(entities[i], field, relatedMap).Some?
                  && 0 <= j < |MatchMany(entities[i], field, relatedMap).value|
                  && relatedModel.getId(MatchMany(entities[i], field, relatedMap).value[j]).Some?
      ensures (relatedModel.table,
               relatedModel.getId(MatchMany(entities[i], field, relatedMap).value[j]).value)
                in EdgesAt(r, (parentModel.table, parentModel.getId(entities[i]), relationshipName))
    {
      var rows := MatchMany(entities[i], field, relatedMap).value;
      assert lists[i] == rows;
      assert Registers(parentModel, entities, lists, relationshipName, relatedModel, i, j,
                       (parentModel.table, parentModel.getId(entities[i]), relationshipName),
                       (relatedModel.table, relatedModel.getId(rows[j]).value));
    }
    forall k | (forall i :: 0 <= i < |entities| && MatchMany(entities[i], field, relatedMap).Some?
                  ==> k != (parentModel.table, parentModel.getId(entities[i]), relationshipName))
      ensures EdgesAt(r, k) == EdgesAt(s, k)
    {
      RegisterAllUntouched(s, parentModel, entities, lists, relationshipName, relatedModel, k);
    }
  }

  /**
   The identity-map effect of `insertOneRelationship`: every matched parent
   whose related row has a non-null id is linked to it; an edge key that
   belongs to no matched parent keeps exactly its old links.
   */
  lemma InsertOneRegistersEdges(s: IdState, parentModel: Model, entities: seq<Entity>,
                                relationshipName: string, relatedModel: Model,
                                relatedMap: map<Key, Entity>, field: string)
    ensures var r := RegisterAll(s, parentModel, entities, OneLists(entities, field, relatedMap),
                                 relationshipName, relatedModel);
            && (forall i :: (0 <= i < |entities| && MatchOne(entities[i], field, relatedMap).Some?
                  && relatedModel.getId(MatchOne(entities[i], field, relatedMap).value).Some?) ==>
                  (relatedModel.table,
                   relatedModel.getId(MatchOne(entities[i], field, relatedMap).value).value)
                    in EdgesAt(r, (parentModel.table, parentModel.getId(entities[i]), relationshipName)))
            && (forall k :: (forall i :: 0 <= i < |entities| && MatchOne(entities[i], field, relatedMap).Some?
                               ==> k != (parentModel.table, parentModel.getId(entities[i]), relationshipName))
                  ==> EdgesAt(r, k) == EdgesAt(s, k))
  {
    var lists := OneLists(entities, field, relatedMap);
    var r := RegisterAll(s, parentModel, entities, lists, relationshipName, relatedModel);
    RegisterAllComplete(s, parentModel, entities, lists, relationshipName, relatedModel);
    RegisterAllGrows(s, parentModel, entities, lists, relationshipName, relatedModel);
    forall i | 0 <= i < |entities| && MatchOne(entities[i], field, relatedMap).Some?
               && relatedModel.getId(MatchOne(entities[i], field, relatedMap).value).Some?
      ensures (relatedModel.table,
               relatedModel.getId(MatchOne(entities[i], field, relatedMap).value).value)
                in EdgesAt(r, (parentModel.table, parentModel.getId(entities[i]), relationshipName))
    {
      var related := MatchOne(entities[i], field, relatedMap).value;
      assert lists[i] == [related];
      assert Registers(parentModel, entities, lists, relationshipName, relatedModel, i, 0,
                       (parentModel.table, parentModel.getId(entities[i]), relationshipName),
                       (relatedModel.table, relatedModel.getId(related).value));
    }
    forall k | (forall i :: 0 <= i < |entities| && MatchOne(entities[i], field, relatedMap).Some?
                  ==> k != (parentModel.table, parentModel.getId(entities[i]), relationshipName))
      ensures EdgesAt(r, k) == EdgesAt(s, k)
    {
      RegisterAllUntouched(s, parentModel, entities, lists, relationshipName, relatedModel, k);
    }
  }

  /** One more parent registered: the fold over a prefix, extended by one. */
  lemma RegisterAllStep(s: IdState, parentModel: Model, entities: seq<Entity>,
                        lists: seq<seq<Entity>>, relationshipName: string, relatedModel: Model,
                        i: int)
    requires |lists| == |entities| && 0 <= i < |entities|
    ensures RegisterAll(s, parentModel, entities[..i + 1], lists[..i + 1], relationshipName,
                        relatedModel)
         == RegisterRows(RegisterAll(s, parentModel, entities[..i], lists[..i], relationshipName,
                                     relatedModel),
                         parentModel, entities[i], relationshipName, relatedModel, lists[i])
  {
    assert entities[..i + 1][..i] == entities[..i] && lists[..i + 1][..i] == lists[..i];
  }

  /** One more related row registered for the same parent. */
  lemma RegisterRowsStep(s: IdState, parentModel: Model, entity: Entity, relationshipName: string,
                         relatedModel: Model, rows: seq<Entity>, j: int)
    requires 0 <= j < |rows|
    ensures RegisterRows(s, parentModel, entity, relationshipName, relatedModel, rows[..j + 1])
         == RegisterRelated(RegisterRows(s, parentModel, entity, relationshipName, relatedModel,
                                         rows[..j]),
                            parentModel, entity, relationshipName, relatedModel, rows[j])
  {
    assert rows[..j + 1][..j] == rows[..j];
  }

  // =====================================================================
  // The imperative operations

  /** `addToEntityMap`. */
  method AddToEntityMap(parentModel: Model, entity: Entity, relationshipName: string,
                        relatedModel: Model, relatedEntity: Entity, identityMap: IdentityMap)
    modifies identityMap
    ensures identityMap.State() == RegisterRelated(old(identityMap.State()), parentModel, entity,
                                                   relationshipName, relatedModel, relatedEntity)
  {
    var relatedEntityId := relatedModel.getId(relatedEntity);
    if relatedEntityId.None? {
      return;
    }
    identityMap.AddId(relatedModel.table, relatedEntityId.value);
    identityMap.AddRelatedId(parentModel.table, parentModel.getId(entity), relationshipName,
                             relatedModel.table, relatedEntityId.value);
  }

  /**
   `insertOneRelationship`: indexes the related rows, attaches the match of
   each parent under `relationshipName` and registers each attachment.
   */
  method InsertOneRelationship(parentModel: Model, entities: seq<Entity>, relationshipName: string,
                               relatedModel: Model, relatedEntities: seq<Entity>,
                               foreignKey: string, field: string, identityMap: IdentityMap)
    returns (result: seq<Entity>)
    modifies identityMap
    ensures result == InsertOne(entities, relationshipName,
                                EntityMapForOne(relatedEntities, foreignKey), field)
    ensures identityMap.State()
         == RegisterAll(old(identityMap.State()), parentModel, entities,
                        OneLists(entities, field, EntityMapForOne(relatedEntities, foreignKey)),
                        relationshipName, relatedModel)
  {
    var relatedEntityMap := GetEntityMapForOne(relatedEntities, foreignKey);
    ghost var lists := OneLists(entities, field, relatedEntityMap);
    ghost var s0 := identityMap.State();
    result := entities;
    for i := 0 to |entities|
      invariant |result| == |entities|
      invariant forall j :: 0 <= j < i ==>
                  result[j] == AttachOne(entities[j], relationshipName, relatedEntityMap, field)
      invariant forall j :: i <= j < |entities| ==> result[j] == entities[j]
      invariant identityMap.State()
             == RegisterAll(s0, parentModel, entities[..i], lists[..i], relationshipName, relatedModel)
    {
      RegisterAllStep(s0, parentModel, entities, lists, relationshipName, relatedModel, i);
      var entity := entities[i];
      var key := KeyOf(Field(entity, field));
      if key.None? || key.value !in relatedEntityMap {
        assert lists[i] == [];
        continue;
      }
      var relatedEntity := relatedEntityMap[key.value];
      assert lists[i] == [relatedEntity] && lists[i][..0] == [];
      result := result[i := result[i][relationshipName := Row(relatedEntity)]];
      AddToEntityMap(parentModel, entity, relationshipName, relatedModel, relatedEntity, identityMap);
    }
    assert entities[..|entities|] == entities && lists[..|entities|] == lists;
  }

  /**
   `insertManyRelationship`: indexes the related rows by group, attaches each
   matched parent's whole group and registers every row of it, in order.
   */
  method InsertManyRelationship(parentModel: Model, entities: seq<Entity>, relationshipName: string,
                                relatedModel: Model, relatedEntities: seq<Entity>,
                                foreignKey: string, field: string, identityMap: IdentityMap)
    returns (result: seq<Entity>)
    modifies identityMap
    ensures result == InsertMany(entities, relationshipName,
                                 EntityMapForMany(relatedEntities, foreignKey), field)
    ensures identityMap.State()
         == RegisterAll(old(identityMap.State()), parentModel, entities,
                        ManyLists(entities, field, EntityMapForMany(relatedEntities, foreignKey)),
                        relationshipName, relatedModel)
  {
    var relatedEntityMap := GetEntityMapForMany(relatedEntities, foreignKey);
    ghost var lists := ManyLists(entities, field, relatedEntityMap);
    ghost var s0 := identityMap.State();
    result := entities;
    for i := 0 to |entities|
      invariant |result| == |entities|
      invariant forall j :: 0 <= j < i ==>
                  result[j] == AttachMany(entities[j], relationshipName, relatedEntityMap, field)
      invariant forall j :: i <= j < |entities| ==> result[j] == entities[j]
      invariant identityMap.State()
             == RegisterAll(s0, parentModel, entities[..i], lists[..i], relationshipName, relatedModel)
    {
      RegisterAllStep(s0, parentModel, entities, lists, relationshipName, relatedModel, i);
      var entity := entities[i];
      var key := KeyOf(Field(entity, field));
      if key.None? || key.value !in relatedEntityMap {
        assert lists[i] == [];
        continue;
      }
      var relationship := relatedEntityMap[key.value];
      assert lists[i] == relationship;
      result := result[i := result[i][relationshipName := Rows(relationship)]];
      ghost var before := identityMap.State();
      for j := 0 to |relationship|
        invariant identityMap.State()
               == RegisterRows(before, parentModel, entity, relationshipName, relatedModel,
                               relationship[..j])
      {
        RegisterRowsStep(before, parentModel, entity, relationshipName, relatedModel,
                         relationship, j);
        AddToEntityMap(parentModel, entity, relationshipName, relatedModel, relationship[j],
                       identityMap);
      }
      assert relationship[..|relationship|] == relationship;
    }
    assert entities[..|entities|] == entities && lists[..|entities|] == lists;
  }

  /**
   `setRelatedIds`: the edge set of (parent table, parent id, relationship)
   becomes exactly the given ids under the related model's table.
   */
  method SetRelatedIds(parentModel: Model, relatedModel: Model, identityMap: IdentityMap,
                       entity: Entity, relationship: string, relatedIds: seq<Key>)
    modifies identityMap
    ensures identityMap.State()
         == SetRelatedIdsIn(old(identityMap.State()), parentModel.table, parentModel.getId(entity),
                            relationship, relatedModel.table, relatedIds)
  {
    identityMap.SetRelatedIds(parentModel.table, parentModel.getId(entity), relationship,
                              relatedModel.table, relatedIds);
  }

  // =====================================================================
  // The parent lookup as written

  /**
   The array key PHP uses for `$relatedEntityMap[$entity[$field]]`: a null
   (or missing) value is read as the empty-string key.
   */
  function OffsetAsWritten(v: Value): Option<Key>
  {
    match v
    case Null => Some(StrKey(""))
    case Scalar(k) => Some(k)
    case _ => None
  }

  /** `isset($relatedEntityMap[$entity[$field]])` as the source evaluates it. */
  predicate MatchesAsWritten(e: Entity, field: string, relatedKeys: set<Key>)
  {
    OffsetAsWritten(Field(e, field)).Some? && OffsetAsWritten(Field(e, field)).value in relatedKeys
  }

  /**
   As written, a parent whose `field` is null is matched with a related row
   whose foreign key is the empty string; the corrected lookup (`MatchOne`)
   never matches a null key.
   */
  lemma NullParentMatchesEmptyForeignKeyAsWritten(field: string, foreignKey: string)
    ensures var parent: Entity := map[field := Null];
            var related: seq<Entity> := [map[foreignKey := Scalar(StrKey(""))]];
            var relatedMap := EntityMapForOne(related, foreignKey);
            && MatchesAsWritten(parent, field, relatedMap.Keys)
            && MatchOne(parent, field, relatedMap).None?
            && InsertOne([parent], "rel", relatedMap, field) == [parent]
  {
    var related: seq<Entity> := [map[foreignKey := Scalar(StrKey(""))]];
    assert related[..0] == [];
    assert StrKey("") in EntityMapForOne(related, foreignKey);
  }

  /**
   The same lookup in `insertManyRelationship`: as written, a parent whose
   `field` is null receives the group of related rows whose foreign key is
   the empty string, and each is registered. The corrected lookup
   (`MatchMany`) leaves the parent unchanged and registers nothing.
   */
  lemma NullParentMatchesEmptyGroupAsWritten(s: IdState, parentModel: Model, relatedModel: Model,
                                             field: string, foreignKey: string)
    ensures var parent: Entity := map[field := Null];
            var related: seq<Entity> := [map[foreignKey := Scalar(StrKey(""))]];
            var relatedMap := EntityMapForMany(related, foreignKey);
            && MatchesAsWritten(parent, field, relatedMap.Keys)
            && relatedMap[StrKey("")] == related
            && MatchMany(parent, field, relatedMap).None?
            && InsertMany([parent], "rel", relatedMap, field) == [parent]
            && RegisterAll(s, parentModel, [parent], ManyLists([parent], field, relatedMap), "rel",
                           relatedModel) == s
  {
    var parent: Entity := map[field := Null];
    var related: seq<Entity> := [map[foreignKey := Scalar(StrKey(""))]];
    var relatedMap := EntityMapForMany(related, foreignKey);
    var e := related[0];
    assert related[..0] == [] && EntityMapForMany(related[..0], foreignKey) == map[];
    assert KeyOf(Field(e, foreignKey)) == Some(StrKey(""));
    assert relatedMap == map[StrKey("") := [] + [e]];
    assert [] + [e] == related;
    var lists := ManyLists([parent], field, relatedMap);
    assert lists == [[]];
    assert [parent][..0] == [] && lists[..0] == [];
  }
}
