/** The in-memory and the SQL batch store over the same calls (internal/batch/store_memory.go, store_sqlite.go): the SQL
    store sorts by the creation time a batch was created with, the other by the one it has now. */
module BatchStores {
  import opened Wrappers
  import opened BatchPaging
  import Strings

  /** A row: the created_at column, which only INSERT writes, and the batch in the data column. */
  datatype Row = Row(createdAt: int, batch: Batch)

  datatype Call = Create(batch: Batch) | Update(batch: Batch)

  type Items = map<string, Batch>

  type Table = map<string, Row>

  /** What MemoryStore.Create and Update leave. */
  function MemoryAfter(items: Items, call: Call): Items {
    if call.batch.id != "" && (call.Create? <==> call.batch.id !in items) then items[call.batch.id := call.batch]
    else items
  }

  /** What SQLiteStore.Create and Update leave. */
  function TableAfter(table: Table, call: Call): Table {
    var id := call.batch.id;
    match call
    case Create(b) => if id == "" || id in table then table else table[id := Row(b.createdAt, b)]
    case Update(b) => if id == "" || id !in table then table else table[id := table[id].(batch := b)]
  }

  function MemoryRan(calls: seq<Call>): Items {
    if calls == [] then map[] else MemoryAfter(MemoryRan(calls[..|calls| - 1]), calls[|calls| - 1])
  }

  function TableRan(calls: seq<Call>): Table {
    if calls == [] then map[] else TableAfter(TableRan(calls[..|calls| - 1]), calls[|calls| - 1])
  }

  /** The batches the in-memory store sorts. */
  function Batches(items: Items): set<Batch> {
    set id | id in items :: items[id]
  }

  /** What the SQL store sorts by: the IDs with the column. */
  function SortKeys(table: Table): set<Batch> {
    set id | id in table :: Batch(id, table[id].createdAt)
  }

  /** Both stores hold the same batches, each under its ID. */
  ghost predicate SameBatches(items: Items, table: Table) {
    && items.Keys == table.Keys
    && forall id :: id in items ==> id != "" && items[id].id == id && items[id] == table[id].batch
  }

  lemma {:induction false} RunsHoldTheSame(calls: seq<Call>)
    ensures SameBatches(MemoryRan(calls), TableRan(calls))
  {
    if calls != [] {
      RunsHoldTheSame(calls[..|calls| - 1]);
    }
  }

  // ---------------------------------------------------------------- listing alike

  ghost predicate IsMemoryPage(items: Items, limit: int, after: string, page: Option<seq<Batch>>) {
    exists all :: IsListing(all, Batches(items)) && page == MemoryPage(all, limit, after)
  }

  predicate SameIds(p: seq<Batch>, q: seq<Batch>) {
    |p| == |q| && forall i :: 0 <= i < |p| ==> p[i].id == q[i].id
  }

  predicate SamePage(p: Option<seq<Batch>>, q: Option<seq<Batch>>) {
    if p.Some? && q.Some? then SameIds(p.value, q.value) else p.None? && q.None?
  }

  /** Every page of the two stores has the same batches in the same order. */
  ghost predicate ListAlike(items: Items, table: Table) {
    forall limit, after, page, keys ::
      IsMemoryPage(items, limit, after, page) && IsSqlPage(SortKeys(table), limit, after, keys) ==> SamePage(page, keys)
  }

  /** The columns order any two batches as their creation times do. */
  ghost predicate OrderedAlike(items: Items, table: Table)
    requires items.Keys == table.Keys
  {
    forall a, b :: a in items && b in items ==>
      (Before(items[a], items[b]) <==> Before(Batch(a, table[a].createdAt), Batch(b, table[b].createdAt)))
  }

  lemma KeysAreUnique(items: Items, table: Table)
    requires SameBatches(items, table)
    ensures UniqueIds(Batches(items)) && UniqueIds(SortKeys(table))
  {
  }

  lemma {:induction false} ListingExists(batches: set<Batch>) returns (all: seq<Batch>)
    requires UniqueIds(batches)
    ensures IsListing(all, batches)
    decreases |batches|
  {
    all := [];
    if batches != {} {
      FirstExists(batches);
      var x :| First(x, batches);
      var rest := ListingExists(batches - {x});
      all := [x] + rest;
      assert forall b :: b in rest ==> b in batches - {x};
    }
  }

  lemma ListedIds(items: Items, table: Table, all: seq<Batch>, keys: seq<Batch>)
    requires SameBatches(items, table) && IsListing(all, Batches(items)) && IsListing(keys, SortKeys(table))
    ensures forall i :: 0 <= i < |all| ==> all[i].id in items && all[i] == items[all[i].id]
    ensures forall i :: 0 <= i < |keys| ==>
            keys[i].id in items && keys[i] == Batch(keys[i].id, table[keys[i].id].createdAt)
  {
    forall i | 0 <= i < |all| ensures all[i].id in items && all[i] == items[all[i].id] {
      assert all[i] in all;
    }
    forall i | 0 <= i < |keys|
      ensures keys[i].id in items && keys[i] == Batch(keys[i].id, table[keys[i].id].createdAt)
    {
      assert keys[i] in keys;
    }
  }

  lemma OrderedAlikeListsAlike(items: Items, table: Table, all: seq<Batch>, keys: seq<Batch>)
    requires SameBatches(items, table) && IsListing(all, Batches(items)) && IsListing(keys, SortKeys(table))
    requires OrderedAlike(items, table)
    ensures SameIds(all, keys)
  {
    ListedIds(items, table, all, keys);
    var q := seq(|keys|, i requires 0 <= i < |keys| && keys[i].id in items => items[keys[i].id]);
    assert forall i :: 0 <= i < |q| ==> q[i].id == keys[i].id;
    assert Ordered(q);
    forall b ensures b in q <==> b in Batches(items) {
      if b in Batches(items) {
        assert Batch(b.id, table[b.id].createdAt) in SortKeys(table);
        var i :| 0 <= i < |keys| && keys[i] == Batch(b.id, table[b.id].createdAt);
        assert q[i] == b;
      }
    }
    ListingIsUnique(all, q, Batches(items));
  }

  lemma ListsAlikeOrderAlike(items: Items, table: Table, all: seq<Batch>, keys: seq<Batch>)
    requires SameBatches(items, table) && IsListing(all, Batches(items)) && IsListing(keys, SortKeys(table))
    requires SameIds(all, keys)
    ensures OrderedAlike(items, table)
  {
    ListedIds(items, table, all, keys);
    forall a, b | a in items && b in items
      ensures Before(items[a], items[b]) <==> Before(Batch(a, table[a].createdAt), Batch(b, table[b].createdAt))
    {
      assert items[a] in Batches(items) && items[b] in Batches(items);
      var i :| 0 <= i < |all| && all[i] == items[a];
      var j :| 0 <= j < |all| && all[j] == items[b];
      PlaceTells(all, i, j);
      PlaceTells(keys, i, j);
    }
  }

  lemma PlaceTells(s: seq<Batch>, i: nat, j: nat)
    requires Ordered(s) && i < |s| && j < |s|
    ensures Before(s[i], s[j]) <==> i < j
  {
    BeforeIsStrict(s[i], s[j], s[i]);
  }

  // ---------------------------------------------------------------- pages and whole listings

  lemma StartsAlike(p: seq<Batch>, q: seq<Batch>, after: string)
    requires SameIds(p, q)
    ensures StartAfter(p, after) == StartAfter(q, after)
  {
    if after != "" {
      IndexesAlike(p, q, after, 0);
    }
  }

  lemma {:induction false} IndexesAlike(p: seq<Batch>, q: seq<Batch>, after: string, i: nat)
    requires SameIds(p, q) && i <= |p|
    ensures IndexAfter(p, after, i) == IndexAfter(q, after, i)
    decreases |p| - i
  {
    if i < |p| && p[i].id != after {
      IndexesAlike(p, q, after, i + 1);
    }
  }

  lemma PagesAlike(p: seq<Batch>, q: seq<Batch>, limit: int, after: string)
    requires SameIds(p, q)
    ensures SamePage(MemoryPage(p, limit, after), MemoryPage(q, limit, after))
  {
    StartsAlike(p, q, after);
  }

  ghost predicate SinglePagesAlike(p: seq<Batch>, q: seq<Batch>) {
    forall after :: SamePage(MemoryPage(p, 1, after), MemoryPage(q, 1, after))
  }

  lemma SinglePageTells(p: seq<Batch>, q: seq<Batch>, n: nat, after: string)
    requires SamePage(MemoryPage(p, 1, after), MemoryPage(q, 1, after))
    requires StartAfter(p, after) == Some(n) && StartAfter(q, after) == Some(n) && n < |p|
    ensures n < |q| && p[n].id == q[n].id
  {
    assert Slice(p, n, 1) == [p[n]];
    assert |Slice(q, n, 1)| == 1;
  }

  /** Pages of one batch each tell the whole listing. */
  lemma {:induction false} SinglePagesTell(p: seq<Batch>, q: seq<Batch>, n: nat)
    requires SinglePagesAlike(p, q) && Findable(p) && Findable(q) && n <= |p|
    ensures n <= |q| && forall i :: 0 <= i < n ==> p[i].id == q[i].id
  {
    if n > 0 {
      SinglePagesTell(p, q, n - 1);
      var after := if n == 1 then "" else p[n - 2].id;
      if n > 1 {
        FindableAt(p, |p|, n - 2);
        FindableAt(q, |q|, n - 2);
      }
      SinglePageTells(p, q, n - 1, after);
    }
  }

  lemma SamePageFlips(p: Option<seq<Batch>>, q: Option<seq<Batch>>)
    requires SamePage(p, q)
    ensures SamePage(q, p)
  {
  }

  lemma ListAlikeIsSameIds(items: Items, table: Table, all: seq<Batch>, keys: seq<Batch>)
    requires SameBatches(items, table) && IsListing(all, Batches(items)) && IsListing(keys, SortKeys(table))
    ensures ListAlike(items, table) <==> SameIds(all, keys)
  {
    if SameIds(all, keys) {
      forall limit, after, page, sql | IsMemoryPage(items, limit, after, page)
        && IsSqlPage(SortKeys(table), limit, after, sql)
        ensures SamePage(page, sql)
      {
        var other :| IsListing(other, Batches(items)) && page == MemoryPage(other, limit, after);
        ListingIsUnique(other, all, Batches(items));
        StoresAgree(keys, SortKeys(table), limit, after, sql);
        PagesAlike(all, keys, limit, after);
      }
    }
    if ListAlike(items, table) {
      forall after ensures SamePage(MemoryPage(all, 1, after), MemoryPage(keys, 1, after)) {
        MemoryPageIsSqlPage(keys, SortKeys(table), 1, after);
        assert IsMemoryPage(items, 1, after, MemoryPage(all, 1, after));
      }
      forall after ensures SamePage(MemoryPage(keys, 1, after), MemoryPage(all, 1, after)) {
        SamePageFlips(MemoryPage(all, 1, after), MemoryPage(keys, 1, after));
      }
      ListingIsFindable(all, Batches(items), |all|);
      ListingIsFindable(keys, SortKeys(table), |keys|);
      SinglePagesTell(all, keys, |all|);
      SinglePagesTell(keys, all, |keys|);
    }
  }

  /** After any calls made to both, the stores answer every listing alike if and only if the creation times batches were
      created with order them as those they have now. */
  lemma StoresListAlikeIff(calls: seq<Call>)
    ensures MemoryRan(calls).Keys == TableRan(calls).Keys
    ensures ListAlike(MemoryRan(calls), TableRan(calls)) <==> OrderedAlike(MemoryRan(calls), TableRan(calls))
  {
    var items, table := MemoryRan(calls), TableRan(calls);
    RunsHoldTheSame(calls);
    KeysAreUnique(items, table);
    var all := ListingExists(Batches(items));
    var keys := ListingExists(SortKeys(table));
    ListAlikeIsSameIds(items, table, all, keys);
    if OrderedAlike(items, table) {
      OrderedAlikeListsAlike(items, table, all, keys);
    }
    if SameIds(all, keys) {
      ListsAlikeOrderAlike(items, table, all, keys);
    }
  }

  /** No accepted update changes a creation time. */
  predicate KeepsCreationTimes(calls: seq<Call>) {
    calls == [] ||
    (KeepsCreationTimes(calls[..|calls| - 1]) &&
     var items, last := MemoryRan(calls[..|calls| - 1]), calls[|calls| - 1];
     last.Update? && last.batch.id in items ==> last.batch.createdAt == items[last.batch.id].createdAt)
  }

  lemma {:induction false} ColumnsStayCurrent(calls: seq<Call>)
    requires KeepsCreationTimes(calls)
    ensures forall id :: id in TableRan(calls) ==> TableRan(calls)[id].createdAt == TableRan(calls)[id].batch.createdAt
  {
    if calls != [] {
      RunsHoldTheSame(calls[..|calls| - 1]);
      ColumnsStayCurrent(calls[..|calls| - 1]);
    }
  }

  /** So they do as long as no update changes one. */
  lemma KeptTimesListAlike(calls: seq<Call>)
    requires KeepsCreationTimes(calls)
    ensures ListAlike(MemoryRan(calls), TableRan(calls))
  {
    RunsHoldTheSame(calls);
    ColumnsStayCurrent(calls);
    StoresListAlikeIff(calls);
    assert OrderedAlike(MemoryRan(calls), TableRan(calls));
  }

  lemma RanOneMore(calls: seq<Call>, call: Call)
    ensures MemoryRan(calls + [call]) == MemoryAfter(MemoryRan(calls), call)
    ensures TableRan(calls + [call]) == TableAfter(TableRan(calls), call)
  {
    assert (calls + [call])[..|calls|] == calls;
  }

  /** An update that moves a batch behind another moves it in one store only. */
  lemma MovedBatchListsApart()
    ensures var calls := [] + [Create(Batch("a", 2))] + [Create(Batch("b", 1))] + [Update(Batch("a", 0))];
            !ListAlike(MemoryRan(calls), TableRan(calls))
  {
    var calls: seq<Call> := [];
    RanOneMore(calls, Create(Batch("a", 2)));
    calls := calls + [Create(Batch("a", 2))];
    RanOneMore(calls, Create(Batch("b", 1)));
    calls := calls + [Create(Batch("b", 1))];
    assert MemoryRan(calls) == map["a" := Batch("a", 2), "b" := Batch("b", 1)];
    assert TableRan(calls) == map["a" := Row(2, Batch("a", 2)), "b" := Row(1, Batch("b", 1))];
    RanOneMore(calls, Update(Batch("a", 0)));
    calls := calls + [Update(Batch("a", 0))];
    StoresListAlikeIff(calls);
    var items, table := MemoryRan(calls), TableRan(calls);
    assert !Before(items["a"], items["b"])
      && Before(Batch("a", table["a"].createdAt), Batch("b", table["b"].createdAt));
  }
}
