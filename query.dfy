/**
 * The listing pipeline of `TarefaRepository.GetAllAsync`: an optional
 * status filter, an optional due-day filter, an ordering picked from the
 * `sortBy`/`order` strings, then `Skip((page - 1) * pageSize).Take(pageSize)`.
 * Each stage is a function over the rows of the table.
 */
module Query {
  import opened Domain
  import opened Text
  import opened Sorting

  /** `int.MaxValue`: `page`, `pageSize` and the skip count are 32-bit. */
  const IntMax: int := 0x7fff_ffff

  /** The paging arguments for which the store's behaviour is modelled: no empty or negative pages, no overflow. */
  predicate ValidPaging(page: int, pageSize: int) {
    1 <= page <= IntMax && 0 <= pageSize <= IntMax && (page - 1) * pageSize <= IntMax
  }

  function Min(a: int, b: int): int { if a <= b then a else b }
  function Max(a: int, b: int): int { if a <= b then b else a }

  /** `Where`: the rows that satisfy `p`, in their original order. */
  function Where(rows: seq<Tarefa>, p: Tarefa -> bool): (r: seq<Tarefa>)
    ensures |r| <= |rows|
    ensures forall t :: t in r ==> p(t)
    ensures forall t :: multiset(r)[t] == if p(t) then multiset(rows)[t] else 0
  {
    if rows == [] then []
    else
      assert rows == [rows[0]] + rows[1..];
      (if p(rows[0]) then [rows[0]] else []) + Where(rows[1..], p)
  }

  /** `t.Status == status`. */
  predicate HasStatus(t: Tarefa, status: Status) {
    t.status == status
  }

  /** `t.DataVencimento.Date == dataVencimento.Date`: the calendar days agree, whatever the times. */
  predicate DueOn(t: Tarefa, day: Ticks) {
    Date(t.dataVencimento) == Date(day)
  }

  /** Whether a row passes both optional filters. */
  predicate Matches(t: Tarefa, status: Option<Status>, dataVencimento: Option<Ticks>) {
    && (status.Some? ==> HasStatus(t, status.value))
    && (dataVencimento.Some? ==> DueOn(t, dataVencimento.value))
  }

  /** The two optional filters, status first. */
  function Filtered(rows: seq<Tarefa>, status: Option<Status>, dataVencimento: Option<Ticks>): (r: seq<Tarefa>)
    ensures |r| <= |rows|
    ensures forall t :: multiset(r)[t] == if Matches(t, status, dataVencimento) then multiset(rows)[t] else 0
  {
    var byStatus := if status.Some? then Where(rows, t => HasStatus(t, status.value)) else rows;
    if dataVencimento.Some? then Where(byStatus, t => DueOn(t, dataVencimento.value)) else byStatus
  }

  /**
   * The ordering chosen by `sortBy` and `order`: a recognised key, compared
   * case-insensitively, is used ascending unless `order` lowers to `"desc"`;
   * a missing, empty or unrecognised key orders by id ascending.
   */
  function ChooseOrdering(sortBy: Option<string>, order: Option<string>): (o: Ordering)
    ensures o.key == ById ==> o.ascending
  {
    if sortBy.None? || sortBy.value == "" then Ordering(ById, true)
    else
      var ascending := order.None? || ToLower(order.value) != "desc";
      var key := ToLower(sortBy.value);
      if key == "titulo" then Ordering(ByTitulo, ascending)
      else if key == "status" then Ordering(ByStatus, ascending)
      else if key == "datavencimento" then Ordering(ByDataVencimento, ascending)
      else Ordering(ById, true)
  }

  /** `Skip(n)`: a count of zero or less skips nothing, one past the end leaves nothing. */
  function Skip(s: seq<Tarefa>, n: int): (r: seq<Tarefa>)
    ensures |r| == if n <= 0 then |s| else Max(0, |s| - n)
    ensures r == s[Min(Max(n, 0), |s|)..]
  {
    if n <= 0 then s else if n >= |s| then [] else s[n..]
  }

  /** `Take(n)`: a count of zero or less takes nothing, one past the end takes everything. */
  function Take(s: seq<Tarefa>, n: int): (r: seq<Tarefa>)
    ensures |r| == if n <= 0 then 0 else Min(n, |s|)
    ensures r == s[..if n <= 0 then 0 else Min(n, |s|)]
  {
    if n <= 0 then [] else if n >= |s| then s else s[..n]
  }

  /** The offset of the first row of page `page`. */
  function Offset(page: int, pageSize: int): (off: nat)
    requires 1 <= page && 0 <= pageSize
  {
    MulNonNegative(page - 1, pageSize);
    (page - 1) * pageSize
  }

  lemma MulNonNegative(a: int, b: int)
    requires 0 <= a && 0 <= b
    ensures 0 <= a * b
  {
  }

  /** Skipping `off` rows and taking `n` leaves the slice `[off, off + n)`, clipped to the input. */
  lemma SkipTakeIsSlice(s: seq<Tarefa>, off: nat, n: nat)
    ensures Take(Skip(s, off), n) == s[Min(off, |s|)..Min(off + n, |s|)]
  {
    if off < |s| {
      assert Skip(s, off) == s[off..];
      if n < |s| - off {
        assert s[off..][..n] == s[off..off + n];
      }
    }
  }

  /** `Skip((page - 1) * pageSize).Take(pageSize)`: the contiguous slice of its input that starts at the page's offset. */
  function Paginate(s: seq<Tarefa>, page: int, pageSize: int): (r: seq<Tarefa>)
    requires ValidPaging(page, pageSize)
    ensures |r| <= pageSize
    ensures var off := Offset(page, pageSize);
      r == s[Min(off, |s|)..Min(off + pageSize, |s|)]
    ensures forall t :: t in r ==> t in s
  {
    SkipTakeIsSlice(s, Offset(page, pageSize), pageSize);
    Take(Skip(s, Offset(page, pageSize)), pageSize)
  }

  /** The filtered rows in the chosen order, before paging. */
  function Arranged(rows: seq<Tarefa>, status: Option<Status>, dataVencimento: Option<Ticks>,
                    sortBy: Option<string>, order: Option<string>): (r: seq<Tarefa>)
    ensures Sorted(r, ChooseOrdering(sortBy, order))
    ensures forall t :: multiset(r)[t] == if Matches(t, status, dataVencimento) then multiset(rows)[t] else 0
  {
    Sort(Filtered(rows, status, dataVencimento), ChooseOrdering(sortBy, order))
  }

  /** The whole pipeline: filter, order, then page. */
  function List(rows: seq<Tarefa>, status: Option<Status>, dataVencimento: Option<Ticks>,
                page: int, pageSize: int, sortBy: Option<string>, order: Option<string>): (r: seq<Tarefa>)
    requires ValidPaging(page, pageSize)
    ensures |r| <= pageSize
    ensures Sorted(r, ChooseOrdering(sortBy, order))
  {
    var a := Arranged(rows, status, dataVencimento, sortBy, order);
    var off := Offset(page, pageSize);
    SliceSorted(a, ChooseOrdering(sortBy, order), Min(off, |a|), Min(off + pageSize, |a|));
    Paginate(a, page, pageSize)
  }

  // ---------------------------------------------------------------------------
  // Properties of the pipeline

  /** Every row that survives filtering and ordering is one of the given rows and passes both filters. */
  lemma ArrangedRowsMatch(rows: seq<Tarefa>, status: Option<Status>, dataVencimento: Option<Ticks>,
                          sortBy: Option<string>, order: Option<string>)
    ensures forall t :: t in Arranged(rows, status, dataVencimento, sortBy, order) ==>
      t in rows && Matches(t, status, dataVencimento)
  {
    var a := Arranged(rows, status, dataVencimento, sortBy, order);
    forall t | t in a ensures t in rows && Matches(t, status, dataVencimento) {
      assert multiset(a)[t] > 0;
    }
  }

  /** Every listed row is one of the given rows and passes both filters. */
  lemma ListedRowsMatch(rows: seq<Tarefa>, status: Option<Status>, dataVencimento: Option<Ticks>,
                        page: int, pageSize: int, sortBy: Option<string>, order: Option<string>)
    requires ValidPaging(page, pageSize)
    ensures forall t :: t in List(rows, status, dataVencimento, page, pageSize, sortBy, order) ==>
      t in rows && Matches(t, status, dataVencimento)
  {
    var a := Arranged(rows, status, dataVencimento, sortBy, order);
    ArrangedRowsMatch(rows, status, dataVencimento, sortBy, order);
    assert List(rows, status, dataVencimento, page, pageSize, sortBy, order) == Paginate(a, page, pageSize);
  }

  /** With a status filter, every listed row has exactly that status. */
  lemma StatusFilterHolds(rows: seq<Tarefa>, status: Status, dataVencimento: Option<Ticks>,
                          page: int, pageSize: int, sortBy: Option<string>, order: Option<string>)
    requires ValidPaging(page, pageSize)
    ensures forall t :: t in List(rows, Some(status), dataVencimento, page, pageSize, sortBy, order) ==>
      t.status == status
  {
    ListedRowsMatch(rows, Some(status), dataVencimento, page, pageSize, sortBy, order);
  }

  /** With a due-date filter, every listed row falls due on that calendar day. */
  lemma DateFilterHolds(rows: seq<Tarefa>, status: Option<Status>, day: Ticks,
                        page: int, pageSize: int, sortBy: Option<string>, order: Option<string>)
    requires ValidPaging(page, pageSize)
    ensures forall t :: t in List(rows, status, Some(day), page, pageSize, sortBy, order) ==>
      Date(t.dataVencimento) == Date(day)
  {
    ListedRowsMatch(rows, status, Some(day), page, pageSize, sortBy, order);
  }

  /** Two due-date filters on the same calendar day list the same rows: the time of day is ignored. */
  lemma {:induction false} DateFilterIgnoresTime(rows: seq<Tarefa>, status: Option<Status>, d1: Ticks, d2: Ticks,
                                                 page: int, pageSize: int, sortBy: Option<string>, order: Option<string>)
    requires ValidPaging(page, pageSize)
    requires Date(d1) == Date(d2)
    ensures List(rows, status, Some(d1), page, pageSize, sortBy, order)
         == List(rows, status, Some(d2), page, pageSize, sortBy, order)
  {
    var byStatus := if status.Some? then Where(rows, t => HasStatus(t, status.value)) else rows;
    WhereAgrees(byStatus, t => DueOn(t, d1), t => DueOn(t, d2));
  }

  lemma {:induction false} WhereAgrees(rows: seq<Tarefa>, p: Tarefa -> bool, q: Tarefa -> bool)
    requires forall t :: p(t) == q(t)
    ensures Where(rows, p) == Where(rows, q)
  {
    if rows != [] {
      WhereAgrees(rows[1..], p, q);
    }
  }

  /** Without filters, ordering drops no row: the arranged rows are a permutation of all rows. */
  lemma NoFilterKeepsAllRows(rows: seq<Tarefa>, sortBy: Option<string>, order: Option<string>)
    ensures multiset(Arranged(rows, None, None, sortBy, order)) == multiset(rows)
  {
    var a := Arranged(rows, None, None, sortBy, order);
    assert forall t :: multiset(a)[t] == multiset(rows)[t];
  }

  lemma SliceSorted(s: seq<Tarefa>, o: Ordering, lo: int, hi: int)
    requires Sorted(s, o) && 0 <= lo <= hi <= |s|
    ensures Sorted(s[lo..hi], o)
  {
    var t := s[lo..hi];
    forall i, j | 0 <= i < j < |t| ensures Precedes(o, t[i], t[j]) {
      assert t[i] == s[lo + i] && t[j] == s[lo + j];
    }
  }

  /**
   * The number of listed rows: `pageSize`, or fewer on the last page, and
   * none past it.
   */
  lemma ListLength(rows: seq<Tarefa>, status: Option<Status>, dataVencimento: Option<Ticks>,
                   page: int, pageSize: int, sortBy: Option<string>, order: Option<string>)
    requires ValidPaging(page, pageSize)
    ensures var matches := |Filtered(rows, status, dataVencimento)|;
      |List(rows, status, dataVencimento, page, pageSize, sortBy, order)|
        == Min(pageSize, Max(0, matches - Offset(page, pageSize)))
    ensures |List(rows, status, dataVencimento, page, pageSize, sortBy, order)| <= pageSize
  {
    var f := Filtered(rows, status, dataVencimento);
    var a := Arranged(rows, status, dataVencimento, sortBy, order);
    assert |a| == |multiset(a)| == |multiset(f)| == |f|;
  }

  /** Recognised sort fields, in any letter case, select their key; the direction is descending exactly when `order` lowers to `"desc"`. */
  lemma RecognisedSortField(sortBy: string, order: Option<string>)
    requires ToLower(sortBy) in {"titulo", "status", "datavencimento"}
    ensures var o := ChooseOrdering(Some(sortBy), order);
      && o.key == (if ToLower(sortBy) == "titulo" then ByTitulo
                   else if ToLower(sortBy) == "status" then ByStatus
                   else ByDataVencimento)
      && (!o.ascending <==> order.Some? && ToLower(order.value) == "desc")
  {
    assert sortBy != "";
  }

  /** A missing, empty or unrecognised sort field orders by id ascending, whatever `order` says. */
  lemma UnrecognisedSortField(sortBy: Option<string>, order: Option<string>)
    requires sortBy.Some? ==> ToLower(sortBy.value) !in {"titulo", "status", "datavencimento"}
    ensures ChooseOrdering(sortBy, order) == Ordering(ById, true)
  {
  }

  /**
   * Twenty rows of which ten are pending, asked for the second page of five
   * pending rows by title: five rows, all pending, in title order.
   */
  lemma SecondPageOfPending(rows: seq<Tarefa>)
    requires |Filtered(rows, Some(Pendente), None)| == 10
    ensures var r := List(rows, Some(Pendente), None, 2, 5, Some("titulo"), Some("asc"));
      && |r| == 5
      && (forall t :: t in r ==> t.status == Pendente)
      && Sorted(r, Ordering(ByTitulo, true))
  {
    TitleAscending();
    ListLength(rows, Some(Pendente), None, 2, 5, Some("titulo"), Some("asc"));
    StatusFilterHolds(rows, Pendente, None, 2, 5, Some("titulo"), Some("asc"));
  }

  lemma TitleAscending()
    ensures ChooseOrdering(Some("titulo"), Some("asc")) == Ordering(ByTitulo, true)
  {
    assert ToLower("titulo") == "titulo";
    assert ToLower("asc") == "asc";
  }
}
