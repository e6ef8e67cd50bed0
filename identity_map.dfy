/**
 The identity map, as far as the relationship code uses it: per table, the
 set of known primary keys; per (table, id, relationship name), the set of
 related (table, id) pairs. Its class is not part of this model; its three
 operations are given set semantics: `addId` and `addRelatedId` add one
 element to a set, `setRelatedIds` replaces one edge set.
 */
module IdentityMaps {
  import opened Values

  /** The owner of a relationship: (table, primary key or null, relationship name). */
  type EdgeKey = (string, Option<Key>, string)

  /** The far end of a relationship edge: (related table, related primary key). */
  type Link = (string, Key)

  datatype IdState = IdState(knownIds: map<string, set<Key>>, edges: map<EdgeKey, set<Link>>)

  function EmptyState(): IdState
  {
    IdState(map[], map[])
  }

  /** The known primary keys of a table (none if the table was never seen). */
  function KnownIds(s: IdState, table: string): set<Key>
  {
    if table in s.knownIds then s.knownIds[table] else {}
  }

  /** The related pairs recorded under one edge key (none if never recorded). */
  function EdgesAt(s: IdState, k: EdgeKey): set<Link>
  {
    if k in s.edges then s.edges[k] else {}
  }

  /** `s` is contained in `t`: every known id and every edge of `s` is in `t`. */
  ghost predicate Grows(s: IdState, t: IdState)
  {
    && (forall table :: KnownIds(s, table) <= KnownIds(t, table))
    && (forall k :: EdgesAt(s, k) <= EdgesAt(t, k))
  }

  function AddIdTo(s: IdState, table: string, id: Key): (r: IdState)
    ensures KnownIds(r, table) == KnownIds(s, table) + {id}
    ensures forall t :: t != table ==> KnownIds(r, t) == KnownIds(s, t)
    ensures r.edges == s.edges
  {
    s.(knownIds := s.knownIds[table := KnownIds(s, table) + {id}])
  }

  function AddRelatedIdTo(s: IdState, table: string, id: Option<Key>, relationshipName: string,
                          relatedTable: string, relatedId: Key): (r: IdState)
    ensures EdgesAt(r, (table, id, relationshipName))
         == EdgesAt(s, (table, id, relationshipName)) + {(relatedTable, relatedId)}
    ensures forall k :: k != (table, id, relationshipName) ==> EdgesAt(r, k) == EdgesAt(s, k)
    ensures r.knownIds == s.knownIds
  {
    var k := (table, id, relationshipName);
    s.(edges := s.edges[k := EdgesAt(s, k) + {(relatedTable, relatedId)}])
  }

  /** The links `setRelatedIds` records: each id paired with the related table. */
  function LinksTo(relatedTable: string, relatedIds: seq<Key>): (r: set<Link>)
    ensures forall t, id :: (t, id) in r <==> t == relatedTable && id in relatedIds
  {
    set id | id in relatedIds :: (relatedTable, id)
  }

  function SetRelatedIdsIn(s: IdState, table: string, id: Option<Key>, relationshipName: string,
                           relatedTable: string, relatedIds: seq<Key>): (r: IdState)
    ensures EdgesAt(r, (table, id, relationshipName)) == LinksTo(relatedTable, relatedIds)
    ensures forall k :: k != (table, id, relationshipName) ==> EdgesAt(r, k) == EdgesAt(s, k)
    ensures r.knownIds == s.knownIds
  {
    s.(edges := s.edges[(table, id, relationshipName) := LinksTo(relatedTable, relatedIds)])
  }

  /** Registering an id that is already known changes nothing. */
  lemma AddIdIdempotent(s: IdState, table: string, id: Key)
    ensures AddIdTo(AddIdTo(s, table, id), table, id) == AddIdTo(s, table, id)
  {
    var once := AddIdTo(s, table, id);
    assert once.knownIds[table := KnownIds(once, table) + {id}] == once.knownIds;
  }

  /** Adding an id or an edge only ever grows the map. */
  lemma AddsGrow(s: IdState, table: string, id: Option<Key>, name: string,
                 relatedTable: string, relatedId: Key)
    ensures Grows(s, AddIdTo(s, relatedTable, relatedId))
    ensures Grows(s, AddRelatedIdTo(s, table, id, name, relatedTable, relatedId))
  {
  }

  class IdentityMap {
    var knownIds: map<string, set<Key>>
    var edges: map<EdgeKey, set<Link>>

    function State(): IdState
      reads this
    {
      IdState(knownIds, edges)
    }

    constructor ()
      ensures State() == EmptyState()
    {
      knownIds := map[];
      edges := map[];
    }

    method AddId(table: string, id: Key)
      modifies this
      ensures State() == AddIdTo(old(State()), table, id)
    {
      knownIds := knownIds[table := KnownIds(State(), table) + {id}];
    }

    method AddRelatedId(table: string, id: Option<Key>, relationshipName: string,
                        relatedTable: string, relatedId: Key)
      modifies this
      ensures State() == AddRelatedIdTo(old(State()), table, id, relationshipName,
                                       relatedTable, relatedId)
    {
      var k := (table, id, relationshipName);
      edges := edges[k := EdgesAt(State(), k) + {(relatedTable, relatedId)}];
    }

    method SetRelatedIds(table: string, id: Option<Key>, relationshipName: string,
                         relatedTable: string, relatedIds: seq<Key>)
      modifies this
      ensures State() == SetRelatedIdsIn(old(State()), table, id, relationshipName,
                                        relatedTable, relatedIds)
    {
      edges := edges[(table, id, relationshipName) := LinksTo(relatedTable, relatedIds)];
    }
  }
}
