/** The bounded conversation store itself (internal/conversationstore/store_memory.go): its maps and its running
    byte total, updated in place. */
module ConversationStore {
  import opened Wrappers
  import opened ConversationState
  import ConversationRuns

  class MemoryStore {
    const cfg: Config
    var items: map<string, Stored>
    var sizes: map<string, nat>
    var totalBytes: int
    var lastCleanup: int

    ghost function Content(): State
      reads this
    {
      State(items, sizes, lastCleanup)
    }

    /** The running total is the sum of the sizes of the stored entries. */
    ghost predicate Counted()
      reads this
    {
      items.Keys == sizes.Keys && totalBytes == Sum(sizes)
    }

    /** What holds between calls: exact accounting, no size over the byte cap, and both caps. */
    ghost predicate Valid()
      reads this
    {
      Counted() && ConversationRuns.Bounded(cfg, Content())
    }

    constructor (cfg: Config)
      ensures Valid() && this.cfg == cfg && Content() == EMPTY
    {
      this.cfg := cfg;
      items, sizes, totalBytes, lastCleanup := map[], map[], 0, ZERO_TIME;
    }

    method RemoveLocked(id: string)
      requires Counted()
      modifies this
      ensures Counted() && Content() == Removed(old(Content()), {id})
    {
      if id !in items {
        assert items - {id} == items && sizes - {id} == sizes;
        return;
      }
      SumRemove(sizes, id);
      items := items - {id};
      totalBytes := totalBytes - sizes[id];
      sizes := sizes - {id};
    }

    method PutLocked(id: string, c: Stored, size: nat)
      requires Counted()
      modifies this
      ensures Counted() && Content() == Put(old(Content()), id, c, size)
    {
      RemoveLocked(id);
      SumPut(sizes, id, size);
      assert sizes - {id} == sizes;
      items := items[id := c];
      sizes := sizes[id := size];
      totalBytes := totalBytes + size;
      assert items == old(items)[id := c] && sizes == old(sizes)[id := size];
    }

    method CleanupExpiredLocked(now: int)
      requires Counted()
      modifies this
      ensures Counted() && Content() == Cleaned(cfg, old(Content()), now)
    {
      if cfg.ttl <= 0 {
        return;
      }
      if cfg.cleanupInterval > 0 && lastCleanup != ZERO_TIME && now - lastCleanup < cfg.cleanupInterval {
        return;
      }
      lastCleanup := now;
      var ids := items.Keys;
      while ids != {}
        invariant Counted() && lastCleanup == now && ids <= items.Keys
        invariant forall id :: id in items <==> id in old(items) && (id in ids || !Expired(old(items)[id], now))
        invariant forall id :: id in items ==> items[id] == old(items)[id] && sizes[id] == old(sizes)[id]
        decreases |ids|
      {
        var id :| id in ids;
        if Expired(items[id], now) {
          RemoveLocked(id);
        }
        ids := ids - {id};
      }
      assert items == Purged(old(Content()), now).items;
      assert sizes == Purged(old(Content()), now).sizes;
    }

    /** The entries in the order the bounds evict them. */
    method SortedEntries() returns (entries: seq<string>)
      ensures entries == InOrder(items, items.Keys)
    {
      entries := [];
      var ids := items.Keys;
      while ids != {}
        invariant ids <= items.Keys
        invariant entries + InOrder(items, ids) == InOrder(items, items.Keys)
        decreases |ids|
      {
        var first := FirstOf(ids);
        FirstIsUnique(items, ids, first, FirstWitness(items, ids));
        entries := entries + [first];
        ids := ids - {first};
      }
    }

    method FirstOf(ids: set<string>) returns (first: string)
      requires ids <= items.Keys && ids != {}
      ensures IsFirst(items, ids, first)
    {
      first :| first in ids;
      var rest := ids - {first};
      while rest != {}
        invariant rest <= ids && first in ids && first !in rest
        invariant forall id :: id in ids && id !in rest && id != first ==> Before(items, first, id)
        decreases |rest|
      {
        var id :| id in rest;
        rest := rest - {id};
        BeforeIsStrictOrder(items, first, id, id);
        if Before(items, id, first) {
          forall other | other in ids && other !in rest && other != id ensures Before(items, id, other) {
            BeforeIsStrictOrder(items, id, first, other);
          }
          first := id;
        }
      }
    }

    /** The code's test of both caps. */
    method Fits() returns (fits: bool)
      requires Counted()
      ensures fits <==> WithinCaps(cfg, Content())
    {
      fits := (cfg.maxEntries <= 0 || |items| <= cfg.maxEntries) && (cfg.maxBytes <= 0 || totalBytes <= cfg.maxBytes);
    }

    method EnforceBoundsLocked(protect: string)
      requires Counted() && protect in items
      modifies this
      ensures Counted() && Content() == Enforced(cfg, old(Content()), protect)
    {
      EnforcedIsEvicted(cfg, Content(), protect);
      var fits := Fits();
      if fits {
        ConversationRuns.EnforcedIdle(cfg, Content(), protect);
        return;
      }
      ghost var all := items;
      ghost var ids := items.Keys;
      var entries := SortedEntries();
      var k := 0;
      while k < |entries|
        invariant 0 <= k <= |entries| && Counted() && ids <= all.Keys
        invariant entries[k..] == InOrder(all, ids)
        invariant Evicted(Caps(cfg), Content(), InOrder(all, ids - {protect})) == Enforced(cfg, old(Content()), protect)
      {
        fits := Fits();
        if fits {
          assert Caps(cfg)(Content());
          EvictedIdle(Caps(cfg), Content(), InOrder(all, ids - {protect}));
          return;
        }
        NextInOrder(all, ids, protect);
        assert entries[k + 1..] == entries[k..][1..];
        if entries[k] != protect {
          EvictedFirst(Caps(cfg), Content(), InOrder(all, ids - {protect}));
          RemoveLocked(entries[k]);
        }
        ids := ids - {entries[k]};
        k := k + 1;
      }
      assert ids == {} by { InOrderLists(all, ids); }
      EvictedIdle(Caps(cfg), Content(), []);
    }

    /** Puts the entry and enforces the bounds for it. */
    method Write(id: string, c: Stored, size: nat)
      requires Counted()
      modifies this
      ensures Counted() && Content() == Enforced(cfg, Put(old(Content()), id, c, size), id)
    {
      PutLocked(id, c, size);
      EnforceBoundsLocked(id);
    }

    method Create(snapshot: Option<Stored>, size: Option<nat>, now: int) returns (reply: Reply)
      requires Counted()
      modifies this
      ensures Counted() && (Content(), reply) == Step(cfg, old(Content()), Call.Create(snapshot, size), now)
    {
      if snapshot.None? || snapshot.value.id == "" {
        return Failed(IdRequired);
      }
      if size.None? {
        return Failed(NotSerializable);
      }
      if cfg.maxBytes > 0 && size.value > cfg.maxBytes {
        return Failed(OverBudget);
      }
      var c := Prepared(snapshot.value, now, cfg.ttl);
      CleanupExpiredLocked(now);
      if Expired(c, now) {
        return Done;
      }
      if c.id in items {
        if !Expired(items[c.id], now) {
          return Failed(AlreadyExists);
        }
        PutOverRemoved(Content(), c.id, c, size.value);
        RemoveLocked(c.id);
      }
      Write(c.id, c, size.value);
      reply := Done;
    }

    method Get(id: string, now: int) returns (reply: Reply)
      requires Counted()
      modifies this
      ensures Counted() && (Content(), reply) == Step(cfg, old(Content()), Call.Get(id), now)
    {
      CleanupExpiredLocked(now);
      if id !in items {
        return Failed(NotFound);
      }
      if Expired(items[id], now) {
        RemoveLocked(id);
        return Failed(NotFound);
      }
      reply := Found(items[id]);
    }

    method Update(snapshot: Option<Stored>, size: Option<nat>, now: int) returns (reply: Reply)
      requires Counted()
      modifies this
      ensures Counted() && (Content(), reply) == Step(cfg, old(Content()), Call.Update(snapshot, size), now)
    {
      if snapshot.None? || snapshot.value.id == "" {
        return Failed(IdRequired);
      }
      if size.None? {
        return Failed(NotSerializable);
      }
      if cfg.maxBytes > 0 && size.value > cfg.maxBytes {
        return Failed(OverBudget);
      }
      var c := snapshot.value;
      CleanupExpiredLocked(now);
      if c.id !in items {
        return Failed(NotFound);
      }
      var existing := items[c.id];
      if Expired(existing, now) {
        RemoveLocked(c.id);
        return Failed(NotFound);
      }
      if c.storedAt == ZERO_TIME {
        c := c.(storedAt := existing.storedAt);
      }
      if c.expiresAt == ZERO_TIME {
        c := c.(expiresAt := existing.expiresAt);
      }
      c := Prepared(c, now, cfg.ttl);
      if Expired(c, now) {
        RemoveLocked(c.id);
        return Failed(NotFound);
      }
      Write(c.id, c, size.value);
      reply := Done;
    }

    method AppendItems(id: string, more: seq<RawMessage>, now: int) returns (reply: Reply)
      requires Counted()
      modifies this
      ensures Counted() && (Content(), reply) == Step(cfg, old(Content()), Call.AppendItems(id, more), now)
    {
      if |more| == 0 {
        return Done;
      }
      var added: nat := 0;
      for i := 0 to |more|
        invariant added == Length(more[..i])
      {
        added := added + |more[i]|;
        assert more[..i + 1][..i] == more[..i];
      }
      assert more[..|more|] == more;
      CleanupExpiredLocked(now);
      if id !in items {
        return Failed(NotFound);
      }
      if Expired(items[id], now) {
        RemoveLocked(id);
        return Failed(NotFound);
      }
      if cfg.maxBytes > 0 && sizes[id] + added > cfg.maxBytes {
        return Failed(WouldOutgrowBudget);
      }
      Grow(id, more, added);
      reply := Done;
    }

    /** Appends the items to the stored conversation, one by one, and accounts for them. */
    method Grow(id: string, more: seq<RawMessage>, added: nat)
      requires Counted() && id in items
      modifies this
      ensures Counted()
      ensures var s := old(Content());
              Content() == Enforced(cfg,
                Put(s, id, s.items[id].(items := s.items[id].items + more), s.sizes[id] + added), id)
    {
      var before := items[id];
      var conversation := before;
      for i := 0 to |more|
        invariant conversation == before.(items := before.items + more[..i])
      {
        conversation := conversation.(items := conversation.items + [more[i]]);
        assert before.items + more[..i + 1] == before.items + more[..i] + [more[i]];
      }
      assert more[..|more|] == more;
      SumRemove(sizes, id);
      SumPut(sizes, id, sizes[id] + added);
      items := items[id := conversation];
      sizes := sizes[id := sizes[id] + added];
      totalBytes := totalBytes + added;
      EnforceBoundsLocked(id);
    }

    method Delete(id: string, now: int) returns (reply: Reply)
      requires Counted()
      modifies this
      ensures Counted() && (Content(), reply) == Step(cfg, old(Content()), Call.Delete(id), now)
    {
      CleanupExpiredLocked(now);
      if id !in items {
        return Failed(NotFound);
      }
      if Expired(items[id], now) {
        RemoveLocked(id);
        return Failed(NotFound);
      }
      RemoveLocked(id);
      reply := Done;
    }

    /** Any call on a store within its bounds leaves it within its bounds. */
    method Serve(call: Call, now: int) returns (reply: Reply)
      requires Valid()
      modifies this
      ensures Valid() && (Content(), reply) == Step(cfg, old(Content()), call, now)
    {
      ConversationRuns.StepIsBounded(cfg, Content(), call, now);
      match call {
        case Create(snapshot, size) => reply := Create(snapshot, size, now);
        case Get(id) => reply := Get(id, now);
        case Update(snapshot, size) => reply := Update(snapshot, size, now);
        case AppendItems(id, more) => reply := AppendItems(id, more, now);
        case Delete(id) => reply := Delete(id, now);
      }
    }
  }

  // ---------------------------------------------------------------- evicting along the order

  ghost function Evicted(fits: State -> bool, s: State, order: seq<string>): State {
    var n := Excess(fits, s, order);
    if n <= |order| then Removed(s, Elements(order[..n])) else s
  }

  lemma PutOverRemoved(s: State, id: string, c: Stored, size: nat)
    ensures Put(Removed(s, {id}), id, c, size) == Put(s, id, c, size)
  {
    assert (s.items - {id})[id := c] == s.items[id := c];
    assert (s.sizes - {id})[id := size] == s.sizes[id := size];
  }

  lemma EnforcedIsEvicted(cfg: Config, s: State, protect: string)
    ensures Enforced(cfg, s, protect) == Evicted(Caps(cfg), s, InOrder(s.items, s.items.Keys - {protect}))
  {
  }

  lemma EvictedIdle(fits: State -> bool, s: State, order: seq<string>)
    requires order == [] || fits(s)
    ensures Evicted(fits, s, order) == s
  {
    RemovedNone(s, order);
  }

  lemma EvictedFirst(fits: State -> bool, s: State, order: seq<string>)
    requires order != [] && !fits(s)
    ensures Evicted(fits, s, order) == Evicted(fits, Removed(s, {order[0]}), order[1..])
  {
    var rest := Removed(s, {order[0]});
    ExcessIsAPrefix(fits, rest, order[1..]);
    RemovedFirst(s, order, Excess(fits, rest, order[1..]));
  }

  /** The first of the ids is skipped if it is protected, and is otherwise the first of the others. */
  lemma NextInOrder(items: map<string, Stored>, ids: set<string>, protect: string)
    requires ids <= items.Keys && ids != {}
    ensures var order := InOrder(items, ids);
      && order != [] && order[1..] == InOrder(items, ids - {order[0]})
      && (order[0] == protect ==> ids - {protect} == ids - {order[0]} - {protect})
      && (order[0] != protect ==>
            var others := InOrder(items, ids - {protect});
            others != [] && others[0] == order[0] && others[1..] == InOrder(items, ids - {order[0]} - {protect}))
  {
    var first := FirstWitness(items, ids);
    if first != protect {
      assert first in ids - {protect};
      FirstIsUnique(items, ids - {protect}, first, FirstWitness(items, ids - {protect}));
      assert ids - {protect} - {first} == ids - {first} - {protect};
    }
  }
}
