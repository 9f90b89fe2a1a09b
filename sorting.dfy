/**
 * The orders the listing can impose on tasks: by id, by title, by status
 * ordinal or by due date, each ascending or descending, and a sort that
 * realises any of them.
 *
 * The store does not promise an order among rows with equal keys, so the
 * sort's contract states only that its result is ordered and is a
 * permutation of its input.
 */
module Sorting {
  import opened Domain

  /**
   * Lexicographic order on strings by code point, the order of SQLite's
   * default BINARY collation on UTF-8 text.
   */
  predicate LexLe(a: string, b: string)
    decreases |a|
  {
    if a == [] then true
    else if b == [] then false
    else if a[0] != b[0] then a[0] < b[0]
    else LexLe(a[1..], b[1..])
  }

  lemma {:induction false} LexLeReflexive(a: string)
    ensures LexLe(a, a)
    decreases |a|
  {
    if a != [] {
      LexLeReflexive(a[1..]);
    }
  }

  lemma {:induction false} LexLeTotal(a: string, b: string)
    ensures LexLe(a, b) || LexLe(b, a)
    decreases |a|
  {
    if a != [] && b != [] && a[0] == b[0] {
      LexLeTotal(a[1..], b[1..]);
    }
  }

  lemma {:induction false} LexLeTransitive(a: string, b: string, c: string)
    requires LexLe(a, b) && LexLe(b, c)
    ensures LexLe(a, c)
    decreases |a|
  {
    if a != [] && b != [] && c != [] && a[0] == b[0] == c[0] {
      LexLeTransitive(a[1..], b[1..], c[1..]);
    }
  }

  lemma {:induction false} LexLeAntisymmetric(a: string, b: string)
    requires LexLe(a, b) && LexLe(b, a)
    ensures a == b
    decreases |a|
  {
    if a != [] && b != [] {
      LexLeAntisymmetric(a[1..], b[1..]);
      assert a == [a[0]] + a[1..] && b == [b[0]] + b[1..];
    }
  }

  /** The sort keys the listing accepts; `ById` is the default. */
  datatype SortKey = ById | ByTitulo | ByStatus | ByDataVencimento

  /** A key and a direction. */
  datatype Ordering = Ordering(key: SortKey, ascending: bool)

  /** `a` does not come after `b` by key `k`: the key selectors `t => t.Id`, `t.Titulo`, `t.Status`, `t.DataVencimento`. */
  predicate KeyLe(k: SortKey, a: Tarefa, b: Tarefa): (le: bool)
    ensures a == b ==> le
  {
    LexLeReflexive(a.titulo);
    match k
    case ById => a.id <= b.id
    case ByTitulo => LexLe(a.titulo, b.titulo)
    case ByStatus => Ordinal(a.status) <= Ordinal(b.status)
    case ByDataVencimento => a.dataVencimento <= b.dataVencimento
  }

  /** `a` may precede `b` under ordering `o`: `OrderBy` for ascending, `OrderByDescending` otherwise. */
  predicate Precedes(o: Ordering, a: Tarefa, b: Tarefa): (p: bool)
    ensures a == b ==> p
    ensures !o.ascending ==> (p <==> Precedes(o.(ascending := true), b, a))
    decreases if o.ascending then 0 else 1
  {
    if o.ascending then KeyLe(o.key, a, b) else KeyLe(o.key, b, a)
  }

  lemma PrecedesTotal(o: Ordering, a: Tarefa, b: Tarefa)
    ensures Precedes(o, a, b) || Precedes(o, b, a)
  {
    if o.key == ByTitulo {
      LexLeTotal(a.titulo, b.titulo);
    }
  }

  lemma PrecedesTransitive(o: Ordering, a: Tarefa, b: Tarefa, c: Tarefa)
    requires Precedes(o, a, b) && Precedes(o, b, c)
    ensures Precedes(o, a, c)
  {
    if o.key == ByTitulo {
      if o.ascending {
        LexLeTransitive(a.titulo, b.titulo, c.titulo);
      } else {
        LexLeTransitive(c.titulo, b.titulo, a.titulo);
      }
    }
  }

  /** Every earlier element may precede every later one. */
  ghost predicate Sorted(s: seq<Tarefa>, o: Ordering) {
    forall i, j :: 0 <= i < j < |s| ==> Precedes(o, s[i], s[j])
  }

  /** Ascending means non-decreasing keys and descending means non-increasing keys. */
  lemma SortedMeaning(s: seq<Tarefa>, k: SortKey, i: int, j: int)
    requires 0 <= i < j < |s|
    ensures Sorted(s, Ordering(k, true)) ==> KeyLe(k, s[i], s[j])
    ensures Sorted(s, Ordering(k, false)) ==> KeyLe(k, s[j], s[i])
  {
  }

  /** Inserts `x` before the first element it may precede. */
  function Insert(x: Tarefa, s: seq<Tarefa>, o: Ordering): (r: seq<Tarefa>)
    ensures multiset(r) == multiset(s) + multiset{x}
  {
    if s == [] then [x]
    else if Precedes(o, x, s[0]) then [x] + s
    else
      assert s == [s[0]] + s[1..];
      [s[0]] + Insert(x, s[1..], o)
  }

  /** An element that may precede every element of a sorted sequence can head it. */
  lemma ConsSorted(y: Tarefa, t: seq<Tarefa>, o: Ordering)
    requires Sorted(t, o)
    requires forall z :: z in t ==> Precedes(o, y, z)
    ensures Sorted([y] + t, o)
  {
    var r := [y] + t;
    forall i, j | 0 <= i < j < |r| ensures Precedes(o, r[i], r[j]) {
      assert r[j] == t[j - 1];
      if i > 0 {
        assert r[i] == t[i - 1];
      }
    }
  }

  /** The head of a sorted sequence may precede all of it. */
  lemma HeadPrecedesAll(s: seq<Tarefa>, o: Ordering)
    requires Sorted(s, o) && s != []
    ensures forall z :: z in s ==> Precedes(o, s[0], z)
  {
    forall z | z in s ensures Precedes(o, s[0], z) {
      var j :| 0 <= j < |s| && s[j] == z;
      if j == 0 {
        PrecedesTotal(o, z, z);
      }
    }
  }

  lemma {:induction false} InsertSorted(x: Tarefa, s: seq<Tarefa>, o: Ordering)
    requires Sorted(s, o)
    ensures Sorted(Insert(x, s, o), o)
  {
    if s == [] {
    } else if Precedes(o, x, s[0]) {
      HeadPrecedesAll(s, o);
      forall z | z in s ensures Precedes(o, x, z) {
        PrecedesTransitive(o, x, s[0], z);
      }
      ConsSorted(x, s, o);
    } else {
      var rest := Insert(x, s[1..], o);
      assert Sorted(s[1..], o);
      InsertSorted(x, s[1..], o);
      PrecedesTotal(o, x, s[0]);
      HeadPrecedesAll(s, o);
      forall z | z in rest ensures Precedes(o, s[0], z) {
        assert z in multiset(rest);
        if z != x {
          assert z in s[1..];
        }
      }
      ConsSorted(s[0], rest, o);
    }
  }

  /** A stable insertion sort under `o`: the result is ordered and a permutation of `s`. */
  function Sort(s: seq<Tarefa>, o: Ordering): (r: seq<Tarefa>)
    ensures multiset(r) == multiset(s)
    ensures Sorted(r, o)
  {
    if s == [] then []
    else
      var rest := Sort(s[1..], o);
      InsertSorted(s[0], rest, o);
      assert s == [s[0]] + s[1..];
      Insert(s[0], rest, o)
  }

  /** Under the id order, a sequence with distinct ids that is sorted is strictly increasing. */
  lemma SortedByIdIsStrict(s: seq<Tarefa>)
    requires Sorted(s, Ordering(ById, true))
    requires forall i, j :: 0 <= i < j < |s| ==> s[i].id != s[j].id
    ensures forall i, j :: 0 <= i < j < |s| ==> s[i].id < s[j].id
  {
  }
}
