/**
 * `TarefaRepository`: the task table and the five operations on it. The
 * table is a map from id to row; the database behind it is not modelled,
 * only what the operations promise about the rows.
 */
module Repository {
  import opened Domain
  import opened Sorting
  import opened Query
  import opened Text

  lemma HasElement(s: set<int>)
    requires s != {}
    ensures exists k :: k in s
  {
    if forall k :: k !in s {
      assert false;
    }
  }

  lemma {:induction false} MinimumExists(s: set<int>)
    requires s != {}
    ensures exists k :: k in s && forall j :: j in s ==> k <= j
    decreases |s|
  {
    HasElement(s);
    var x :| x in s;
    var rest := s - {x};
    if rest != {} {
      MinimumExists(rest);
      var m :| m in rest && forall j :: j in rest ==> m <= j;
      var least := if x < m then x else m;
      forall j | j in s ensures least <= j {
        if j != x {
          assert j in rest;
        }
      }
    } else {
      forall j | j in s ensures x <= j {
        assert j in rest || j == x;
      }
    }
  }

  /** The least key of a non-empty key set. */
  function MinKey(s: set<int>): (k: int)
    requires s != {}
    ensures k in s && forall j :: j in s ==> k <= j
  {
    MinimumExists(s);
    var k :| k in s && forall j :: j in s ==> k <= j;
    k
  }

  lemma RemoveOne(s: set<int>, k: int)
    requires k in s
    ensures |s - {k}| == |s| - 1
  {
    assert s == (s - {k}) + {k};
  }

  /** A key below every key of a strictly increasing sequence can head it. */
  lemma PrependSmaller(k: int, rest: seq<int>)
    requires forall i, j :: 0 <= i < j < |rest| ==> rest[i] < rest[j]
    requires forall j :: j in rest ==> k < j
    ensures var ks := [k] + rest; forall i, j :: 0 <= i < j < |ks| ==> ks[i] < ks[j]
  {
    var ks := [k] + rest;
    forall i, j | 0 <= i < j < |ks| ensures ks[i] < ks[j] {
      assert ks[j] == rest[j - 1] && ks[j] in rest;
      if i > 0 {
        assert ks[i] == rest[i - 1];
      }
    }
  }

  /** The keys of a table in ascending order. */
  function KeysAscending(s: set<int>): (ks: seq<int>)
    ensures |ks| == |s|
    ensures forall k :: k in ks <==> k in s
    ensures forall i, j :: 0 <= i < j < |ks| ==> ks[i] < ks[j]
    decreases |s|
  {
    if s == {} then []
    else
      var k := MinKey(s);
      RemoveOne(s, k);
      var rest := KeysAscending(s - {k});
      PrependSmaller(k, rest);
      [k] + rest
  }

  /** The rows of a table, in ascending key order: what a query over the table starts from. */
  function Rows(table: map<int, Tarefa>): (r: seq<Tarefa>)
    ensures |r| == |table|
    ensures forall i :: 0 <= i < |r| ==> r[i] in table.Values
  {
    var ks := KeysAscending(table.Keys);
    seq(|ks|, i requires 0 <= i < |ks| => table[ks[i]])
  }

  /** The table is keyed by id. */
  ghost predicate KeyedById(table: map<int, Tarefa>) {
    forall k :: k in table ==> table[k].id == k
  }

  /** Every stored row appears in `Rows`, and nothing else does. */
  lemma RowsAreStored(table: map<int, Tarefa>)
    ensures forall t :: t in Rows(table) <==> t in table.Values
  {
    var ks := KeysAscending(table.Keys);
    var r := Rows(table);
    forall t | t in table.Values ensures t in r {
      var k :| k in table && table[k] == t;
      var i :| 0 <= i < |ks| && ks[i] == k;
      assert r[i] == t;
    }
  }

  /** In a table keyed by id, the rows come out once each, by strictly increasing id. */
  lemma RowsByIncreasingId(table: map<int, Tarefa>)
    requires KeyedById(table)
    ensures var r := Rows(table);
      forall i, j :: 0 <= i < j < |r| ==> r[i].id < r[j].id
  {
    var ks := KeysAscending(table.Keys);
    var r := Rows(table);
    forall i, j | 0 <= i < j < |r| ensures r[i].id < r[j].id {
      assert r[i] == table[ks[i]] && r[j] == table[ks[j]];
    }
  }

  /** Every listed row is a stored row that passes the filters given. */
  lemma ListedRowsAreStored(table: map<int, Tarefa>, status: Option<Status>, dataVencimento: Option<Ticks>,
                            page: int, pageSize: int, sortBy: Option<string>, order: Option<string>)
    requires ValidPaging(page, pageSize)
    ensures forall t :: t in List(Rows(table), status, dataVencimento, page, pageSize, sortBy, order) ==>
      t in table.Values && Matches(t, status, dataVencimento)
  {
    ListedRowsMatch(Rows(table), status, dataVencimento, page, pageSize, sortBy, order);
    RowsAreStored(table);
  }

  /** Without filters, the rows before paging are exactly the stored rows, each once. */
  lemma UnfilteredListingKeepsEveryRow(table: map<int, Tarefa>, sortBy: Option<string>, order: Option<string>)
    ensures |Arranged(Rows(table), None, None, sortBy, order)| == |table|
    ensures forall t :: t in Arranged(Rows(table), None, None, sortBy, order) <==> t in table.Values
  {
    var a := Arranged(Rows(table), None, None, sortBy, order);
    NoFilterKeepsAllRows(Rows(table), sortBy, order);
    RowsAreStored(table);
    assert |a| == |multiset(a)| == |multiset(Rows(table))|;
    forall t ensures t in a <==> t in Rows(table) {
      assert t in a <==> t in multiset(a);
    }
  }

  /** Without a sort field, or with one not in the whitelist, the page is in ascending id order whatever `order` says. */
  lemma DefaultOrderIsById(table: map<int, Tarefa>, status: Option<Status>, dataVencimento: Option<Ticks>,
                           page: int, pageSize: int, sortBy: Option<string>, order: Option<string>)
    requires ValidPaging(page, pageSize)
    requires sortBy.Some? ==> ToLower(sortBy.value) !in {"titulo", "status", "datavencimento"}
    ensures var r := List(Rows(table), status, dataVencimento, page, pageSize, sortBy, order);
      forall i, j :: 0 <= i < j < |r| ==> r[i].id <= r[j].id
  {
    UnrecognisedSortField(sortBy, order);
    var r := List(Rows(table), status, dataVencimento, page, pageSize, sortBy, order);
    assert Sorted(r, Ordering(ById, true));
  }

  /** The table after `Remove` of the row with key `id`, if there is one. */
  function Deleted(table: map<int, Tarefa>, id: int): (r: map<int, Tarefa>)
    ensures id !in r
    ensures r.Keys == table.Keys - {id}
    ensures forall k :: k in r ==> r[k] == table[k]
    ensures id !in table ==> r == table
    ensures id in table ==> |r| == |table| - 1
  {
    if id in table then table - {id} else table
  }

  /** The table after a row is written under its own id: nothing else changes. */
  function Stored(table: map<int, Tarefa>, t: Tarefa): (r: map<int, Tarefa>)
    ensures t.id in r && r[t.id] == t
    ensures r.Keys == table.Keys + {t.id}
    ensures forall k :: k in table && k != t.id ==> r[k] == table[k]
    ensures |r| == if t.id in table then |table| else |table| + 1
  {
    table[t.id := t]
  }

  lemma StoredKeepsKeying(table: map<int, Tarefa>, t: Tarefa)
    requires KeyedById(table)
    ensures KeyedById(Stored(table, t))
  {
  }

  /** Deleting a row that was just stored gives back the table it was stored in. */
  lemma DeleteUndoesStore(table: map<int, Tarefa>, t: Tarefa)
    requires t.id !in table
    ensures Deleted(Stored(table, t), t.id) == table
  {
  }

  class TarefaRepository {
    /** The rows of the `Tarefas` table, by id. */
    var table: map<int, Tarefa>
    /** The largest id handed out so far; generated ids continue from it, as `AUTOINCREMENT` keys do. */
    var lastId: int

    ghost predicate Valid()
      reads this
    {
      && KeyedById(table)
      && 0 <= lastId
      && forall k :: k in table ==> k <= lastId
    }

    constructor (rows: map<int, Tarefa>)
      requires KeyedById(rows)
      ensures Valid() && table == rows
    {
      table := rows;
      var keys := KeysAscending(rows.Keys);
      lastId := if keys == [] || keys[|keys| - 1] < 0 then 0 else keys[|keys| - 1];
      if keys != [] {
        var last := keys[|keys| - 1];
        assert forall k :: k in rows ==> k <= last by {
          forall k | k in rows ensures k <= last {
            var i :| 0 <= i < |keys| && keys[i] == k;
            assert i == |keys| - 1 || keys[i] < keys[|keys| - 1];
          }
        }
      }
    }

    /**
     * `GetAllAsync`: the query starts from all rows, is narrowed by each
     * filter given, ordered, and paged.
     */
    method GetAllAsync(status: Option<Status>, dataVencimento: Option<Ticks>, page: int := 1,
                       pageSize: int := 10, sortBy: Option<string> := None, order: Option<string> := Some("asc"))
      returns (r: seq<Tarefa>)
      requires ValidPaging(page, pageSize)
      ensures r == List(Rows(table), status, dataVencimento, page, pageSize, sortBy, order)
    {
      var query := Rows(table);
      if status.Some? {
        query := Where(query, t => HasStatus(t, status.value));
      }
      if dataVencimento.Some? {
        query := Where(query, t => DueOn(t, dataVencimento.value));
      }
      query := Sort(query, ChooseOrdering(sortBy, order));
      query := Take(Skip(query, Offset(page, pageSize)), pageSize);
      r := query;
    }

    /** `GetByIdAsync`: the row with that id, or none. */
    function GetByIdAsync(id: int): (r: Option<Tarefa>)
      reads this
      ensures r.Some? <==> id in table
      ensures r.Some? ==> r.value in table.Values && r.value == table[id]
    {
      if id in table then Some(table[id]) else None
    }

    /**
     * `AddAsync`: the row is inserted. An id of 0 asks the store for a
     * fresh one; any other id is kept and must be unused.
     */
    method AddAsync(t: Tarefa) returns (created: Tarefa)
      requires Valid()
      requires t.id == 0 || t.id !in table
      modifies this
      ensures Valid()
      ensures created == t.(id := created.id)
      ensures t.id != 0 ==> created.id == t.id
      ensures t.id == 0 ==> created.id > 0
      ensures created.id !in old(table)
      ensures table == Stored(old(table), created)
      ensures |table| == |old(table)| + 1
      ensures GetByIdAsync(created.id) == Some(created)
    {
      var id := if t.id == 0 then lastId + 1 else t.id;
      created := t.(id := id);
      table := table[id := created];
      if id > lastId {
        lastId := id;
      }
    }

    /** `UpdateAsync`: the stored row with the same id is replaced; the id must be stored. */
    method UpdateAsync(t: Tarefa)
      requires Valid()
      requires t.id in table
      modifies this
      ensures Valid()
      ensures table == Stored(old(table), t)
      ensures table.Keys == old(table.Keys)
      ensures GetByIdAsync(t.id) == Some(t)
    {
      table := table[t.id := t];
    }

    /** `DeleteAsync`: removes the row with that id if there is one; otherwise nothing happens. */
    method DeleteAsync(id: int)
      requires Valid()
      modifies this
      ensures Valid()
      ensures table == Deleted(old(table), id)
      ensures GetByIdAsync(id) == None
      ensures old(id !in table) ==> table == old(table)
    {
      var task := GetByIdAsync(id);
      if task.Some? {
        table := table - {id};
      }
    }
  }
}
