/** Batch listing (internal/batch/store_memory.go, store_sqlite.go, store.go and
    internal/gateway/batch_orchestrator.go): the in-memory and the SQL form of a page, and walking through the pages. */
module BatchPaging {
  import opened Wrappers
  import Strings

  datatype Batch = Batch(id: string, createdAt: int)

  // ---------------------------------------------------------------- the order of a listing

  /** created_at desc, id desc. */
  predicate Before(a: Batch, b: Batch) {
    a.createdAt > b.createdAt || (a.createdAt == b.createdAt && Strings.Less(b.id, a.id))
  }

  ghost predicate Ordered(s: seq<Batch>) {
    forall i, j :: 0 <= i < j < |s| ==> Before(s[i], s[j])
  }

  /** Batches are told apart by their IDs. */
  ghost predicate UniqueIds(batches: set<Batch>) {
    forall a, b :: a in batches && b in batches && a.id == b.id ==> a == b
  }

  lemma BeforeIsStrict(a: Batch, b: Batch, c: Batch)
    ensures !Before(a, a)
    ensures Before(a, b) && Before(b, c) ==> Before(a, c)
    ensures a.id != b.id ==> Before(a, b) || Before(b, a)
  {
    Strings.LessIrreflexive(a.id);
    Strings.LessTotal(a.id, b.id);
    if Strings.Less(c.id, b.id) && Strings.Less(b.id, a.id) {
      Strings.LessTransitive(c.id, b.id, a.id);
    }
  }

  ghost predicate First(x: Batch, batches: set<Batch>) {
    x in batches && forall y :: y in batches && y != x ==> Before(x, y)
  }

  lemma {:induction false} FirstExists(batches: set<Batch>)
    requires batches != {} && UniqueIds(batches)
    ensures exists x :: First(x, batches)
    decreases |batches|
  {
    var y :| y in batches;
    if batches == {y} {
      assert First(y, batches);
    } else {
      FirstExists(batches - {y});
      var x :| First(x, batches - {y});
      BeforeIsStrict(x, y, x);
      if Before(x, y) {
        assert First(x, batches);
      } else {
        forall z | z in batches && z != y ensures Before(y, z) {
          BeforeIsStrict(y, x, z);
        }
        assert First(y, batches);
      }
    }
  }

  /** All the batches, in listing order. */
  ghost predicate IsListing(all: seq<Batch>, batches: set<Batch>) {
    Ordered(all) && UniqueIds(batches) && forall b :: b in all <==> b in batches
  }

  /** sort.Slice with that order. */
  method Sort(batches: set<Batch>) returns (all: seq<Batch>)
    requires UniqueIds(batches)
    ensures IsListing(all, batches)
  {
    all := [];
    var left := batches;
    while left != {}
      invariant Ordered(all) && left <= batches
      invariant forall b :: b in all <==> b in batches - left
      invariant forall a, b :: a in all && b in left ==> Before(a, b)
      decreases |left|
    {
      FirstExists(left);
      var x :| x in left && forall y :: y in left && y != x ==> Before(x, y);
      all, left := all + [x], left - {x};
    }
  }

  lemma ListedOnce(all: seq<Batch>, batches: set<Batch>, i: nat, j: nat)
    requires IsListing(all, batches) && i < |all| && j < |all| && all[i].id == all[j].id
    ensures i == j
  {
    assert all[i] in all && all[j] in all;
    BeforeIsStrict(all[i], all[i], all[i]);
  }

  // ---------------------------------------------------------------- one page, in the two stores

  function NormalizeLimit(limit: int): nat {
    if limit <= 0 then 20 else if limit > 101 then 101 else limit
  }

  function Min(a: nat, b: nat): nat {
    if a < b then a else b
  }

  /** Where the page after this cursor starts; none if the cursor names no batch. */
  function StartAfter(all: seq<Batch>, after: string): (start: Option<nat>)
    ensures start.Some? ==> start.value <= |all|
  {
    if after == "" then Some(0) else IndexAfter(all, after, 0)
  }

  function IndexAfter(all: seq<Batch>, after: string, i: nat): (start: Option<nat>)
    requires i <= |all|
    ensures start.Some? ==> i < start.value <= |all| && all[start.value - 1].id == after
    ensures start.None? ==> forall k :: i <= k < |all| ==> all[k].id != after
    decreases |all| - i
  {
    if i == |all| then None
    else if all[i].id == after then Some(i + 1)
    else IndexAfter(all, after, i + 1)
  }

  /** What the SQL statement's WHERE, ORDER BY and LIMIT select after this cursor. */
  ghost predicate Selects(rows: set<Batch>, cursor: Option<Batch>, limit: nat, page: seq<Batch>) {
    && Ordered(page) && |page| <= limit
    && (forall b :: b in page ==> b in rows && Keyset(cursor, b))
    && (forall b :: b in rows && Keyset(cursor, b) && b !in page ==>
        |page| == limit && forall a :: a in page ==> Before(a, b))
  }

  /** The keyset condition: the rows after the cursor's creation time and ID. */
  predicate Keyset(cursor: Option<Batch>, b: Batch) {
    cursor.None? || b.createdAt < cursor.value.createdAt
    || (b.createdAt == cursor.value.createdAt && Strings.Less(b.id, cursor.value.id))
  }

  ghost predicate HasId(rows: set<Batch>, id: string) {
    exists b :: b in rows && b.id == id
  }

  /** SQLiteStore.List: none for an unknown cursor, else what the statement selects. */
  ghost predicate IsSqlPage(rows: set<Batch>, limit: int, after: string, result: Option<seq<Batch>>) {
    if after == "" then result.Some? && Selects(rows, None, NormalizeLimit(limit), result.value)
    else if HasId(rows, after) then
      exists cursor :: cursor in rows && cursor.id == after &&
        result.Some? && Selects(rows, Some(cursor), NormalizeLimit(limit), result.value)
    else result.None?
  }

  /** Up to `limit` batches from `start` on. */
  function Slice(all: seq<Batch>, start: nat, limit: nat): seq<Batch>
    requires start <= |all|
  {
    all[start..Min(start + limit, |all|)]
  }

  /** MemoryStore.List: a slice of the sorted batches. */
  function MemoryPage(all: seq<Batch>, limit: int, after: string): Option<seq<Batch>> {
    match StartAfter(all, after)
    case None => None
    case Some(start) => Some(Slice(all, start, NormalizeLimit(limit)))
  }

  lemma SliceSelects(all: seq<Batch>, rows: set<Batch>, start: nat, limit: nat, cursor: Option<Batch>)
    requires IsListing(all, rows) && start <= |all|
    requires forall i :: 0 <= i < |all| ==> (Keyset(cursor, all[i]) <==> start <= i)
    ensures Selects(rows, cursor, limit, Slice(all, start, limit))
  {
    var page := Slice(all, start, limit);
    forall i | start <= i < Min(start + limit, |all|) ensures all[i] in page {
      assert page[i - start] == all[i];
    }
    forall b | b in rows && Keyset(cursor, b) && b !in page
      ensures |page| == limit && forall a :: a in page ==> Before(a, b)
    {
      assert b in all;
      var i :| 0 <= i < |all| && all[i] == b;
      assert start <= i;
    }
  }

  lemma CursorSplits(all: seq<Batch>, rows: set<Batch>, at: nat, i: nat)
    requires IsListing(all, rows) && at < |all| && i < |all|
    ensures Keyset(Some(all[at]), all[i]) <==> at < i
  {
    BeforeIsStrict(all[at], all[i], all[at]);
    if i < at {
      BeforeIsStrict(all[i], all[at], all[i]);
    }
  }

  lemma SliceAfterCursor(all: seq<Batch>, rows: set<Batch>, limit: nat, start: nat)
    requires IsListing(all, rows) && 0 < start <= |all|
    ensures Selects(rows, Some(all[start - 1]), limit, Slice(all, start, limit))
  {
    forall i | 0 <= i < |all| ensures Keyset(Some(all[start - 1]), all[i]) <==> start <= i {
      CursorSplits(all, rows, start - 1, i);
    }
    SliceSelects(all, rows, start, limit, Some(all[start - 1]));
  }

  lemma FirstPage(all: seq<Batch>, rows: set<Batch>, limit: int)
    requires IsListing(all, rows)
    ensures IsSqlPage(rows, limit, "", MemoryPage(all, limit, ""))
  {
    SliceSelects(all, rows, 0, NormalizeLimit(limit), None);
  }

  lemma KnownCursorPage(rows: set<Batch>, limit: int, after: string, cursor: Batch, page: seq<Batch>)
    requires after != "" && cursor in rows && cursor.id == after
    requires Selects(rows, Some(cursor), NormalizeLimit(limit), page)
    ensures IsSqlPage(rows, limit, after, Some(page))
  {
  }

  lemma CursorIsListed(all: seq<Batch>, rows: set<Batch>, after: string)
    requires IsListing(all, rows) && after != ""
    ensures StartAfter(all, after).Some? ==> all[StartAfter(all, after).value - 1] in rows
    ensures StartAfter(all, after).None? ==> !HasId(rows, after)
  {
    var start := StartAfter(all, after);
    if start.Some? {
      assert all[start.value - 1] in all;
    } else {
      forall b | b in rows ensures b.id != after {
        assert b in all;
      }
    }
  }

  lemma PageAfterCursor(all: seq<Batch>, rows: set<Batch>, limit: int, after: string, start: nat)
    requires IsListing(all, rows) && after != "" && StartAfter(all, after) == Some(start)
    ensures IsSqlPage(rows, limit, after, MemoryPage(all, limit, after))
  {
    CursorIsListed(all, rows, after);
    SliceAfterCursor(all, rows, NormalizeLimit(limit), start);
    KnownCursorPage(rows, limit, after, all[start - 1], Slice(all, start, NormalizeLimit(limit)));
  }

  lemma UnknownCursorPage(all: seq<Batch>, rows: set<Batch>, limit: int, after: string)
    requires IsListing(all, rows) && after != "" && StartAfter(all, after).None?
    ensures IsSqlPage(rows, limit, after, MemoryPage(all, limit, after))
  {
    CursorIsListed(all, rows, after);
  }

  /** The slice after the cursor's index is the page that the keyset condition selects. */
  lemma MemoryPageIsSqlPage(all: seq<Batch>, rows: set<Batch>, limit: int, after: string)
    requires IsListing(all, rows)
    ensures IsSqlPage(rows, limit, after, MemoryPage(all, limit, after))
  {
    if after == "" {
      FirstPage(all, rows, limit);
    } else if StartAfter(all, after).Some? {
      PageAfterCursor(all, rows, limit, after, StartAfter(all, after).value);
    } else {
      UnknownCursorPage(all, rows, limit, after);
    }
  }

  lemma {:induction false} SelectionIsUnique(rows: set<Batch>, cursor: Option<Batch>, limit: nat, p: seq<Batch>,
                                             q: seq<Batch>)
    requires Selects(rows, cursor, limit, p) && Selects(rows, cursor, limit, q)
    ensures p == q
    decreases |p|
  {
    assert p != [] ==> p[0] in p;
    assert q != [] ==> q[0] in q;
    if p != [] && q != [] {
      var x := p[0];
      HeadIsFirst(rows, cursor, limit, p, q[0]);
      HeadIsFirst(rows, cursor, limit, q, p[0]);
      BeforeIsStrict(p[0], q[0], p[0]);
      assert q[0] == x;
      DroppingHeadSelects(rows, cursor, limit, p);
      DroppingHeadSelects(rows, cursor, limit, q);
      SelectionIsUnique(rows - {x}, cursor, limit - 1, p[1..], q[1..]);
      assert p == [x] + p[1..] && q == [x] + q[1..];
    }
  }

  lemma HeadIsFirst(rows: set<Batch>, cursor: Option<Batch>, limit: nat, p: seq<Batch>, b: Batch)
    requires Selects(rows, cursor, limit, p) && p != [] && b in rows && Keyset(cursor, b)
    ensures b == p[0] || Before(p[0], b)
  {
    assert p[0] in p;
  }

  lemma DroppingHeadSelects(rows: set<Batch>, cursor: Option<Batch>, limit: nat, p: seq<Batch>)
    requires Selects(rows, cursor, limit, p) && p != []
    ensures Selects(rows - {p[0]}, cursor, limit - 1, p[1..])
  {
    BeforeIsStrict(p[0], p[0], p[0]);
    forall b | b in p[1..] ensures b in p && b != p[0] {
    }
    forall b | b in rows - {p[0]} && Keyset(cursor, b) && b !in p[1..]
      ensures |p[1..]| == limit - 1 && forall a :: a in p[1..] ==> Before(a, b)
    {
      assert b !in p by {
        assert p == [p[0]] + p[1..];
      }
    }
  }

  /** There is only one listing of the same batches. */
  lemma ListingIsUnique(p: seq<Batch>, q: seq<Batch>, rows: set<Batch>)
    requires IsListing(p, rows) && IsListing(q, rows)
    ensures p == q
  {
    SelectionIsUnique(rows, None, |p| + |q|, p, q);
  }

  /** So the two stores list the same page. */
  lemma StoresAgree(all: seq<Batch>, rows: set<Batch>, limit: int, after: string, result: Option<seq<Batch>>)
    requires IsListing(all, rows)
    ensures IsSqlPage(rows, limit, after, result) <==> result == MemoryPage(all, limit, after)
  {
    MemoryPageIsSqlPage(all, rows, limit, after);
    if IsSqlPage(rows, limit, after, result) {
      var memory := MemoryPage(all, limit, after);
      if after == "" {
        SelectionIsUnique(rows, None, NormalizeLimit(limit), result.value, memory.value);
      } else if HasId(rows, after) {
        var cursor :| cursor in rows && cursor.id == after;
        SelectionIsUnique(rows, Some(cursor), NormalizeLimit(limit), result.value, memory.value);
      }
    }
  }

  /** The part of MemoryStore.List after the sorting. */
  method SliceAfter(sorted: seq<Batch>, limit': nat, after: string) returns (page: Option<seq<Batch>>)
    ensures page == match StartAfter(sorted, after)
                    case None => None
                    case Some(start) => Some(Slice(sorted, start, limit'))
  {
    var start := 0;
    if after != "" {
      var idx := -1;
      var i := 0;
      while i < |sorted| && idx == -1
        invariant 0 <= i <= |sorted|
        invariant idx == -1 || (idx == i - 1 && i >= 1)
        invariant IndexAfter(sorted, after, 0) == if idx == -1 then IndexAfter(sorted, after, i) else Some(idx + 1)
        decreases |sorted| - i
      {
        if sorted[i].id == after {
          idx := i;
        }
        i := i + 1;
      }
      if idx == -1 {
        return None;
      }
      start := idx + 1;
    }
    if start >= |sorted| {
      assert sorted[start..|sorted|] == [];
      return Some([]);
    }
    return Some(sorted[start..Min(start + limit', |sorted|)]);
  }

  lemma NoPageForUnknownCursor(all: seq<Batch>, rows: set<Batch>, limit: int, after: string)
    requires IsListing(all, rows)
    ensures MemoryPage(all, limit, after).None? <==> after != "" && !HasId(rows, after)
  {
    if after != "" {
      CursorIsListed(all, rows, after);
    }
  }

  datatype StoreError = IdRequired | AlreadyExists | NotFound

  class MemoryStore {
    var items: map<string, Batch>

    /** Every batch is stored under its own ID. */
    ghost predicate Valid()
      reads this
    {
      forall id :: id in items ==> items[id].id == id && id != ""
    }

    function Rows(): set<Batch>
      reads this
    {
      set id | id in items :: items[id]
    }

    lemma RowsAreUnique()
      requires Valid()
      ensures UniqueIds(Rows())
      ensures forall id :: HasId(Rows(), id) <==> id in items
    {
      forall id | id in items ensures HasId(Rows(), id) {
        assert items[id] in Rows();
      }
    }

    constructor ()
      ensures Valid() && items == map[]
    {
      items := map[];
    }

    method Create(batch: Batch) returns (error: Option<StoreError>)
      requires Valid()
      modifies this
      ensures Valid()
      ensures error ==
              if batch.id == "" then Some(IdRequired)
              else if batch.id in old(items) then Some(AlreadyExists)
              else None
      ensures items == if error.None? then old(items)[batch.id := batch] else old(items)
    {
      if batch.id == "" {
        return Some(IdRequired);
      }
      if batch.id in items {
        return Some(AlreadyExists);
      }
      items := items[batch.id := batch];
      return None;
    }

    method Update(batch: Batch) returns (error: Option<StoreError>)
      requires Valid()
      modifies this
      ensures Valid()
      ensures error ==
              if batch.id == "" then Some(IdRequired)
              else if batch.id !in old(items) then Some(NotFound)
              else None
      ensures items == if error.None? then old(items)[batch.id := batch] else old(items)
    {
      if batch.id == "" {
        return Some(IdRequired);
      }
      if batch.id !in items {
        return Some(NotFound);
      }
      items := items[batch.id := batch];
      return None;
    }

    /** The page after the cursor, in listing order; the SQL store's statement selects the same page. */
    method List(limit: int, after: string) returns (page: Option<seq<Batch>>)
      requires Valid()
      ensures exists all :: IsListing(all, Rows()) && page == MemoryPage(all, limit, after)
      ensures IsSqlPage(Rows(), limit, after, page)
      ensures page.None? <==> after != "" && after !in items
    {
      RowsAreUnique();
      var limit' := NormalizeLimit(limit);
      var sorted := Sort(Rows());
      MemoryPageIsSqlPage(sorted, Rows(), limit, after);
      NoPageForUnknownCursor(sorted, Rows(), limit, after);
      page := SliceAfter(sorted, limit', after);
    }
  }

  // ---------------------------------------------------------------- the public listing

  datatype Response = Response(data: seq<Batch>, hasMore: bool, firstId: string, lastId: string)

  function ClampLimit(limit: int): (l: nat)
    ensures 1 <= l <= 100
  {
    var l := if limit <= 0 then 20 else limit;
    if l > 100 then 100 else l
  }

  /** The page of up to `l` batches from `start` on. */
  function PageFrom(all: seq<Batch>, l: nat, start: nat): Response
    requires start <= |all| && l > 0
  {
    var data := Slice(all, start, l);
    Response(data, start + l < |all|,
             if data == [] then "" else data[0].id,
             if data == [] then "" else data[|data| - 1].id)
  }

  /** What the public listing answers; none for an unknown cursor. */
  function Listed(all: seq<Batch>, limit: int, after: string): Option<Response> {
    match StartAfter(all, Strings.Trim(after))
    case None => None
    case Some(start) => Some(PageFrom(all, ClampLimit(limit), start))
  }

  /** BatchOrchestrator.List: one batch more than asked for tells whether there are more. */
  method List(store: MemoryStore, limit: int, after: string) returns (response: Option<Response>)
    requires store.Valid()
    ensures exists all :: IsListing(all, store.Rows()) && response == Listed(all, limit, after)
  {
    var l := ClampLimit(limit);
    var trimmed := Strings.Trim(after);
    var page := store.List(l + 1, trimmed);
    ghost var all :| IsListing(all, store.Rows()) && page == MemoryPage(all, l + 1, trimmed);
    if page.None? {
      assert Listed(all, limit, after).None?;
      return None;
    }
    var answer := Respond(page.value, l);
    OneMoreTells(all, l, StartAfter(all, trimmed).value, page.value);
    response := Some(answer);
    assert response == Listed(all, limit, after);
  }

  /** The rest of BatchOrchestrator.List, on what the store returned. */
  method Respond(page: seq<Batch>, l: nat) returns (response: Response)
    ensures response == Answer(page, l)
  {
    var items := page;
    var hasMore := |items| > l;
    if hasMore {
      items := items[..l];
    }
    var data: seq<Batch> := [];
    for i := 0 to |items|
      invariant data == items[..i]
    {
      data := data + [items[i]];
    }
    if |data| > 0 {
      response := Response(data, hasMore, data[0].id, data[|data| - 1].id);
    } else {
      response := Response(data, hasMore, "", "");
    }
  }

  /** The answer when the store returned these batches. */
  function Answer(page: seq<Batch>, l: nat): Response {
    var data := page[..Min(l, |page|)];
    Response(data, |page| > l, if data == [] then "" else data[0].id, if data == [] then "" else data[|data| - 1].id)
  }

  lemma OneMoreTells(all: seq<Batch>, l: nat, start: nat, page: seq<Batch>)
    requires 0 < l <= 100 && start <= |all| && page == Slice(all, start, l + 1)
    ensures Answer(page, l) == PageFrom(all, l, start)
  {
    assert PageFrom(all, l, start).data == Answer(page, l).data;
  }

  // ---------------------------------------------------------------- walking through the pages

  /** These are the answers to asking for the page after `after`, and then after each page's last ID as long as there
      are more. */
  ghost predicate IsWalk(all: seq<Batch>, limit: int, after: string, pages: seq<Response>)
    decreases |pages|
  {
    && pages != [] && Listed(all, limit, after) == Some(pages[0])
    && (pages[0].hasMore <==> |pages| > 1)
    && (|pages| > 1 ==> IsWalk(all, limit, pages[0].lastId, pages[1..]))
  }

  function DataOf(pages: seq<Response>): seq<Batch> {
    if pages == [] then [] else pages[0].data + DataOf(pages[1..])
  }

  /** The IDs that end a page with more to come, from `start` on, have no surrounding white space. */
  ghost predicate BoundariesTrimmed(all: seq<Batch>, l: nat, start: nat)
    requires l > 0
    decreases |all| - start
  {
    start + l < |all| ==> Strings.IsTrimmed(all[start + l - 1].id) && BoundariesTrimmed(all, l, start + l)
  }

  /** The pages of a full walk from `start` on. */
  function Pages(all: seq<Batch>, l: nat, start: nat): (pages: seq<Response>)
    requires l > 0 && start <= |all|
    ensures pages != []
    decreases |all| - start
  {
    if start + l < |all| then [PageFrom(all, l, start)] + Pages(all, l, start + l) else [PageFrom(all, l, start)]
  }

  /** Every batch's ID finds it. */
  ghost predicate Findable(all: seq<Batch>) {
    FindableBelow(all, |all|)
  }

  ghost predicate FindableBelow(all: seq<Batch>, n: nat) {
    n <= |all| && (n > 0 ==> StartAfter(all, all[n - 1].id) == Some(n) && FindableBelow(all, n - 1))
  }

  lemma {:induction false} FindableAt(all: seq<Batch>, n: nat, i: nat)
    requires FindableBelow(all, n) && i < n
    ensures StartAfter(all, all[i].id) == Some(i + 1)
  {
    if i < n - 1 {
      FindableAt(all, n - 1, i);
    }
  }

  lemma {:induction false} ListingIsFindable(all: seq<Batch>, rows: set<Batch>, n: nat)
    requires IsListing(all, rows) && (forall b :: b in rows ==> b.id != "") && n <= |all|
    ensures FindableBelow(all, n)
  {
    if n > 0 {
      ListingIsFindable(all, rows, n - 1);
      assert all[n - 1] in all;
      var start := IndexAfter(all, all[n - 1].id, 0);
      if start.Some? {
        ListedOnce(all, rows, n - 1, start.value - 1);
      }
    }
  }

  lemma DataOfFirst(page: Response, pages: seq<Response>)
    ensures DataOf([page] + pages) == page.data + DataOf(pages)
  {
    assert ([page] + pages)[1..] == pages;
  }

  lemma DataOfOne(page: Response)
    ensures DataOf([page]) == page.data
  {
    assert [page][1..] == [];
    assert page.data + [] == page.data;
  }

  lemma FullPage(all: seq<Batch>, l: nat, start: nat)
    requires l > 0 && start + l < |all|
    ensures PageFrom(all, l, start).data == all[start..start + l]
  {
  }

  lemma LastPage(all: seq<Batch>, l: nat, start: nat)
    requires l > 0 && start <= |all| <= start + l
    ensures PageFrom(all, l, start).data == all[start..]
  {
  }

  lemma DataOfJoined(all: seq<Batch>, page: Response, pages: seq<Response>, i: nat, j: nat)
    requires i <= j <= |all| && page.data == all[i..j] && DataOf(pages) == all[j..]
    ensures DataOf([page] + pages) == all[i..]
  {
    DataOfFirst(page, pages);
    assert all[i..j] + all[j..] == all[i..];
  }

  lemma PagesJoined(all: seq<Batch>, l: nat, start: nat, rest: seq<Response>)
    requires l > 0 && start + l < |all| && DataOf(rest) == all[start + l..]
    ensures DataOf([PageFrom(all, l, start)] + rest) == all[start..]
  {
    FullPage(all, l, start);
    DataOfJoined(all, PageFrom(all, l, start), rest, start, start + l);
  }

  lemma {:induction false} PagesAreTheData(all: seq<Batch>, l: nat, start: nat)
    requires l > 0 && start <= |all|
    ensures DataOf(Pages(all, l, start)) == all[start..]
    decreases |all| - start
  {
    if start + l < |all| {
      PagesAreTheData(all, l, start + l);
      PagesJoined(all, l, start, Pages(all, l, start + l));
    } else {
      LastPage(all, l, start);
      DataOfOne(PageFrom(all, l, start));
    }
  }

  lemma IsWalkFirst(all: seq<Batch>, limit: int, after: string, page: Response, pages: seq<Response>)
    requires Listed(all, limit, after) == Some(page) && (page.hasMore <==> pages != [])
    requires pages != [] ==> IsWalk(all, limit, page.lastId, pages)
    ensures IsWalk(all, limit, after, [page] + pages)
  {
    assert ([page] + pages)[1..] == pages;
  }

  lemma WalkContinues(all: seq<Batch>, limit: int, l: nat, after: string, start: nat, rest: seq<Response>)
    requires l == ClampLimit(limit) && StartAfter(all, Strings.Trim(after)) == Some(start) && start + l < |all|
    requires rest != [] && IsWalk(all, limit, all[start + l - 1].id, rest)
    ensures IsWalk(all, limit, after, [PageFrom(all, l, start)] + rest)
  {
    var page := PageFrom(all, l, start);
    FullPage(all, l, start);
    assert page.lastId == all[start + l - 1].id;
    IsWalkFirst(all, limit, after, page, rest);
  }

  lemma {:induction false} TrimmedWalk(all: seq<Batch>, limit: int, l: nat, after: string, start: nat)
    requires Findable(all) && l == ClampLimit(limit)
    requires StartAfter(all, Strings.Trim(after)) == Some(start) && BoundariesTrimmed(all, l, start)
    ensures IsWalk(all, limit, after, Pages(all, l, start))
    decreases |all| - start
  {
    if start + l < |all| {
      Strings.TrimFixesTrimmed(all[start + l - 1].id);
      FindableAt(all, |all|, start + l - 1);
      TrimmedWalk(all, limit, l, all[start + l - 1].id, start + l);
      WalkContinues(all, limit, l, after, start, Pages(all, l, start + l));
    } else {
      assert Listed(all, limit, after) == Some(PageFrom(all, l, start));
    }
  }

  /** The first page of a walk, and what is left for the others. */
  lemma WalkStarts(all: seq<Batch>, limit: int, l: nat, after: string, start: nat, pages: seq<Response>)
    requires l == ClampLimit(limit) && StartAfter(all, Strings.Trim(after)) == Some(start)
    requires IsWalk(all, limit, after, pages) && DataOf(pages) == all[start..]
    requires start + l < |all|
    ensures |pages| > 1 && IsWalk(all, limit, all[start + l - 1].id, pages[1..])
    ensures DataOf(pages[1..]) == all[start + l..]
  {
    assert pages[0] == PageFrom(all, l, start);
    assert pages[0].data == all[start..start + l];
    assert all[start..][l..] == all[start + l..];
    assert DataOf(pages)[l..] == DataOf(pages[1..]);
  }

  lemma BoundaryIsTrimmed(all: seq<Batch>, l: nat, start: nat)
    requires l > 0
    requires start + l < |all| ==> Strings.IsTrimmed(all[start + l - 1].id) && BoundariesTrimmed(all, l, start + l)
    ensures BoundariesTrimmed(all, l, start)
  {
  }

  lemma {:induction false} FullWalkIsTrimmed(all: seq<Batch>, limit: int, l: nat, after: string, start: nat,
                                             pages: seq<Response>)
    requires l == ClampLimit(limit) && Findable(all) && StartAfter(all, Strings.Trim(after)) == Some(start)
    requires IsWalk(all, limit, after, pages) && DataOf(pages) == all[start..]
    ensures BoundariesTrimmed(all, l, start)
    decreases |pages|
  {
    if start + l < |all| {
      var boundary := all[start + l - 1].id;
      WalkStarts(all, limit, l, after, start, pages);
      NextStartIsTrimmed(all, limit, start + l - 1, pages[1..]);
      FullWalkIsTrimmed(all, limit, l, boundary, start + l, pages[1..]);
    }
    BoundaryIsTrimmed(all, l, start);
  }

  /** Only a trimmed ID leads to the batch that follows it. */
  lemma NextStartIsTrimmed(all: seq<Batch>, limit: int, i: nat, pages: seq<Response>)
    requires Findable(all) && i + 1 < |all| && IsWalk(all, limit, all[i].id, pages) && DataOf(pages) == all[i + 1..]
    ensures Strings.IsTrimmed(all[i].id) && StartAfter(all, Strings.Trim(all[i].id)) == Some(i + 1)
  {
    var trimmed := Strings.Trim(all[i].id);
    var start := StartAfter(all, trimmed).value;
    assert pages[0] == PageFrom(all, ClampLimit(limit), start);
    assert all[i + 1..][0] == all[i + 1];
    FindableAt(all, |all|, i);
    FindableAt(all, |all|, i + 1);
    if start < |all| {
      assert pages[0].data[0] == all[start];
      FindableAt(all, |all|, start);
    }
    Strings.TrimFixesTrimmed(all[i].id);
  }

  /** Walking from the first page by the last ID of each yields every batch once, in order, and says that there are more
      on every page but the last, exactly if no ID at the end of a page has surrounding white space. */
  lemma WalkListsEverythingIff(all: seq<Batch>, rows: set<Batch>, limit: int)
    requires IsListing(all, rows) && forall b :: b in rows ==> b.id != ""
    ensures (exists pages :: IsWalk(all, limit, "", pages) && DataOf(pages) == all) <==>
            BoundariesTrimmed(all, ClampLimit(limit), 0)
  {
    assert Strings.Trim("") == "";
    assert all[0..] == all;
    ListingIsFindable(all, rows, |all|);
    if BoundariesTrimmed(all, ClampLimit(limit), 0) {
      TrimmedWalk(all, limit, ClampLimit(limit), "", 0);
      PagesAreTheData(all, ClampLimit(limit), 0);
    }
    if pages :| IsWalk(all, limit, "", pages) && DataOf(pages) == all {
      FullWalkIsTrimmed(all, limit, ClampLimit(limit), "", 0, pages);
    }
  }

  /** There is only one walk, so a client that follows the IDs cannot see anything else. */
  lemma {:induction false} WalkIsUnique(all: seq<Batch>, limit: int, after: string, p: seq<Response>, q: seq<Response>)
    requires IsWalk(all, limit, after, p) && IsWalk(all, limit, after, q)
    ensures p == q
    decreases |p|
  {
    if |p| > 1 {
      WalkIsUnique(all, limit, p[0].lastId, p[1..], q[1..]);
    }
    assert p == [p[0]] + p[1..] && q == [q[0]] + q[1..];
  }

  /** For trimmed IDs the walk lists everything whatever the limit. */
  lemma TrimmedIdsWalk(all: seq<Batch>, rows: set<Batch>, limit: int)
    requires IsListing(all, rows) && forall b :: b in rows ==> b.id != "" && Strings.IsTrimmed(b.id)
    ensures IsWalk(all, limit, "", Pages(all, ClampLimit(limit), 0)) && DataOf(Pages(all, ClampLimit(limit), 0)) == all
  {
    assert Strings.Trim("") == "";
    assert all[0..] == all;
    ListingIsFindable(all, rows, |all|);
    TrimmedBoundaries(all, rows, ClampLimit(limit), 0);
    TrimmedWalk(all, limit, ClampLimit(limit), "", 0);
    PagesAreTheData(all, ClampLimit(limit), 0);
  }

  lemma {:induction false} TrimmedBoundaries(all: seq<Batch>, rows: set<Batch>, l: nat, start: nat)
    requires l > 0 && IsListing(all, rows) && forall b :: b in rows ==> Strings.IsTrimmed(b.id)
    ensures BoundariesTrimmed(all, l, start)
    decreases |all| - start
  {
    if start + l < |all| {
      assert all[start + l - 1] in all;
      TrimmedBoundaries(all, rows, l, start + l);
    }
  }

  /** An ID with a leading space ends the walk: the orchestrator trims the cursor and then cannot find it. */
  lemma PaddedIdBreaksTheWalk()
    ensures var all := [Batch(" a", 2), Batch("b", 1)];
            IsListing(all, {all[0], all[1]}) && Listed(all, 1, "").Some? && Listed(all, 1, "").value.hasMore
            && Listed(all, 1, Listed(all, 1, "").value.lastId).None?
  {
    assert Strings.TrimLeft("a") == "a";
    assert " a"[1..] == "a";
    assert Strings.TrimLeft(" a") == "a";
    assert Strings.Trim(" a") == "a";
    assert Strings.Trim("") == "";
    assert IndexAfter([Batch(" a", 2), Batch("b", 1)], "a", 2).None?;
    assert "b" != "a" && "b"[0] != "a"[0];
    assert IndexAfter([Batch(" a", 2), Batch("b", 1)], "a", 1).None?;
    assert " a"[0] != "a"[0];
    assert IndexAfter([Batch(" a", 2), Batch("b", 1)], "a", 0).None?;
  }

  // ---------------------------------------------------------------- a page, told by its batches

  /** A listing has the newest batch first, and of those created together the one with the greatest ID. */
  lemma ListingIsNewestFirst(all: seq<Batch>, batches: set<Batch>, i: nat, j: nat)
    requires IsListing(all, batches) && i < j < |all|
    ensures all[i].createdAt >= all[j].createdAt
    ensures all[i].createdAt == all[j].createdAt ==> Strings.Less(all[j].id, all[i].id)
  {
  }

  /** The batches from here on, up to `n` of them. */
  ghost predicate IsStretch(all: seq<Batch>, start: nat, n: nat, page: seq<Batch>) {
    && start <= |all| && |page| == (if |all| - start < n then |all| - start else n)
    && forall k :: 0 <= k < |page| ==> page[k] == all[start + k]
  }

  lemma {:induction false} IndexOf(all: seq<Batch>, after: string, i: nat, k: nat)
    requires i <= k < |all| && all[k].id == after && forall j :: i <= j < k ==> all[j].id != after
    ensures IndexAfter(all, after, i) == Some(k + 1)
    decreases k - i
  {
    if i < k {
      IndexOf(all, after, i + 1, k);
    }
  }

  /** The limit that the public listing goes by: 20 unless asked for another, and at most 100. */
  predicate AsksFor(limit: int, asked: nat) {
    asked == if limit <= 0 then 20 else if limit > 100 then 100 else limit
  }

  lemma ListedFromTheFront(all: seq<Batch>, limit: int, after: string, asked: nat)
    requires Strings.Trim(after) == "" && AsksFor(limit, asked)
    ensures var response := Listed(all, limit, after);
            response.Some? && IsStretch(all, 0, asked, response.value.data) && response.value.hasMore == (asked < |all|)
  {
  }

  /** The public listing starts behind the batch that the cursor, without surrounding white space, names. */
  lemma ListedBehindCursor(all: seq<Batch>, limit: int, after: string, asked: nat, k: nat)
    requires Strings.Trim(after) != "" && AsksFor(limit, asked)
    requires k < |all| && all[k].id == Strings.Trim(after) && forall j :: 0 <= j < k ==>
             all[j].id != Strings.Trim(after)
    ensures var response := Listed(all, limit, after);
      response.Some? && IsStretch(all, k + 1, asked, response.value.data)
      && response.value.hasMore == (k + 1 + asked < |all|)
  {
    IndexOf(all, Strings.Trim(after), 0, k);
  }

  /** It answers up to the limit, and says that there are more exactly if any are left; without a cursor it starts at
      the front, and it answers nothing if the cursor names no batch. */
  lemma ListedIsTheNextStretch(all: seq<Batch>, limit: int, after: string, asked: nat)
    requires AsksFor(limit, asked)
    ensures Listed(all, limit, after).None? <==>
            Strings.Trim(after) != "" && forall j :: 0 <= j < |all| ==> all[j].id != Strings.Trim(after)
    ensures Listed(all, limit, after).Some? ==>
            exists start: nat ::
              && IsStretch(all, start, asked, Listed(all, limit, after).value.data)
              && Listed(all, limit, after).value.hasMore == (start + asked < |all|)
              && (Strings.Trim(after) == "" ==> start == 0)
              && (Strings.Trim(after) != "" ==> start > 0 && all[start - 1].id == Strings.Trim(after))
  {
    if Strings.Trim(after) == "" {
      ListedFromTheFront(all, limit, after, asked);
    } else if j :| 0 <= j < |all| && all[j].id == Strings.Trim(after) {
      var k := FirstNamed(all, Strings.Trim(after), j);
      ListedBehindCursor(all, limit, after, asked, k);
    }
  }

  lemma {:induction false} FirstNamed(all: seq<Batch>, id: string, j: nat) returns (k: nat)
    requires j < |all| && all[j].id == id
    ensures k <= j && all[k].id == id && forall i :: 0 <= i < k ==> all[i].id != id
  {
    k := j;
    if i :| 0 <= i < j && all[i].id == id {
      k := FirstNamed(all, id, i);
    }
  }

  /** The stores' own limit defaults to 20 as well, and goes up to 101: one more than the public listing asks for. */
  lemma StorePageIsTheNextStretch(all: seq<Batch>, limit: int)
    ensures MemoryPage(all, limit, "").Some?
    ensures IsStretch(all, 0, if limit <= 0 then 20 else if limit > 101 then 101 else limit,
                      MemoryPage(all, limit, "").value)
  {
  }
}
