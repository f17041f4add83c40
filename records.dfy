/**
 * The in-memory side of every database-backed object: a map from column
 * name to a possibly-null value, the row id the object was made for, and the
 * table it belongs to.
 */
module Records {
  import opened Wrappers

  /** Column name to value; None is a Java null. */
  type Params = map<string, Option<string>>

  /** The row the database answers for the object's id: column name to value. */
  type Row = string -> Option<string>

  /** HashMap.get: null for a key that is missing as well as for a key mapped to null. */
  function Lookup(params: Params, p: string): (v: Option<string>)
    ensures p in params ==> v == params[p]
    ensures p !in params ==> v == None
  {
    if p in params then params[p] else None
  }

  /**
   * What load(id) leaves in `params`: below id 1 nothing happens, otherwise
   * every existing key takes the row's value and no key is added or removed.
   */
  function LoadParams(params: Params, id: int, row: Row): (r: Params)
    ensures r.Keys == params.Keys
    ensures id < 1 ==> r == params
    ensures id >= 1 ==> forall k :: k in r ==> r[k] == row(k)
  {
    if id < 1 then params else map k | k in params :: row(k)
  }

  /** The statement save() hands to the database. */
  datatype SaveQuery =
    | Insert(table: Option<string>, values: Params)
    | Update(table: Option<string>, values: Params, id: int)

  /** No value is null. */
  predicate AllSet(params: Params)
  {
    forall k :: k in params ==> params[k].Some?
  }

  class DatabaseObject {
    var params: Params
    /** Set once by the constructor; no method assigns it again. */
    const id: int
    var table: Option<string>

    constructor (id: int)
      ensures this.id == id && params == map[] && table == None
    {
      this.id := id;
      params := map[];
      table := None;
    }

    function GetID(): (r: int)
    {
      id
    }

    function Get(p: string): (v: Option<string>)
      reads this
    {
      Lookup(params, p)
    }

    method SetParameters(m: Params)
      modifies this
      ensures params == m && table == old(table)
    {
      params := m;
    }

    method SetTableName(t: Option<string>)
      modifies this
      ensures table == t && params == old(params)
    {
      table := t;
    }

    /** After set(p, v), get(p) answers v and every other key answers what it did before. */
    method Set(p: string, v: Option<string>)
      modifies this
      ensures Get(p) == v
      ensures forall q :: q != p ==> Get(q) == old(Get(q))
      ensures params == old(params)[p := v] && table == old(table)
    {
      params := params[p := v];
    }

    /** Copies every entry of `m`; keys `m` does not mention keep their values. */
    method SetAll(m: Params)
      modifies this
      ensures params == old(params) + m && table == old(table)
      ensures forall q :: q in m ==> Get(q) == m[q]
      ensures forall q :: q !in m ==> Get(q) == old(Get(q))
    {
      var pending := m.Keys;
      while pending != {}
        invariant pending <= m.Keys
        invariant params.Keys == old(params).Keys + (m.Keys - pending)
        invariant forall q :: q in params ==> params[q] == if q in m && q !in pending then m[q] else old(params)[q]
        invariant table == old(table)
        decreases pending
      {
        var k :| k in pending;
        params := params[k := m[k]];
        pending := pending - {k};
      }
    }

    /** load(id): the row is the database's answer for this object's own id. */
    method Load(id: int, row: Row)
      modifies this
      ensures params == LoadParams(old(params), id, row) && table == old(table)
    {
      if id < 1 {
        return;
      }
      var pending := params.Keys;
      while pending != {}
        invariant pending <= params.Keys == old(params).Keys
        invariant forall q :: q in params ==> params[q] == if q in pending then old(params)[q] else row(q)
        invariant table == old(table)
        decreases pending
      {
        var k :| k in pending;
        params := params[k := row(k)];
        pending := pending - {k};
      }
    }

    /** An insert for an object without a row yet (id below 1), an update of row `id` otherwise. */
    function Save(): (q: SaveQuery)
      reads this
      ensures id < 1 <==> q.Insert?
      ensures q.table == table && q.values == params
      ensures q.Update? ==> q.id == id
    {
      if id < 1 then Insert(table, params) else Update(table, params, id)
    }

    /** True exactly when no parameter value is null. */
    method ReadyToSave() returns (ready: bool)
      ensures ready <==> AllSet(params)
    {
      var pending := params.Keys;
      while pending != {}
        invariant pending <= params.Keys
        invariant forall q :: q in params && q !in pending ==> params[q].Some?
        decreases pending
      {
        var k :| k in pending;
        if params[k] == None {
          return false;
        }
        pending := pending - {k};
      }
      return true;
    }
  }
}
