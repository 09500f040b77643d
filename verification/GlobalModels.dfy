/** The unqualified model map (internal/providers/configured_models.go): the first provider that has a model supplies
    it. */
module GlobalModels {
  import opened Wrappers
  import opened Registry
  import Strings

  // ---------------------------------------------------------------- the order of the providers

  predicate Ascending(s: seq<string>) {
    forall i, j :: 0 <= i < j < |s| ==> Strings.Less(s[i], s[j])
  }

  ghost predicate Least(x: string, s: set<string>) {
    x in s && forall y :: y in s && y != x ==> Strings.Less(x, y)
  }

  lemma {:induction false} LeastExists(s: set<string>)
    requires s != {}
    ensures exists x :: Least(x, s)
    decreases |s|
  {
    var y :| y in s;
    if s == {y} {
      assert Least(y, s);
    } else {
      LeastExists(s - {y});
      var x :| Least(x, s - {y});
      Strings.LessTotal(x, y);
      if Strings.Less(x, y) {
        assert Least(x, s);
      } else {
        forall z | z in s && z != y ensures Strings.Less(y, z) {
          if z != x {
            Strings.LessTransitive(y, x, z);
          }
        }
        assert Least(y, s);
      }
    }
  }

  /** sort.Strings on the keys of a map. */
  method SortStrings(keys: set<string>) returns (sorted: seq<string>)
    ensures Ascending(sorted)
    ensures forall x :: x in sorted <==> x in keys
  {
    sorted := [];
    var left := keys;
    while left != {}
      invariant Ascending(sorted) && left <= keys
      invariant forall x :: x in sorted <==> x in keys - left
      invariant forall x, y :: x in sorted && y in left ==> Strings.Less(x, y)
      decreases |left|
    {
      LeastExists(left);
      var x :| x in left && forall y :: y in left && y != x ==> Strings.Less(x, y);
      sorted, left := sorted + [x], left - {x};
    }
  }

  /** The sorted order is determined by the names, whatever order the map was iterated in. */
  lemma {:induction false} AscendingIsUnique(s: seq<string>, t: seq<string>)
    requires Ascending(s) && Ascending(t)
    requires forall x :: x in s <==> x in t
    ensures s == t
    decreases |s|
  {
    assert s != [] ==> s[0] in s;
    assert t != [] ==> t[0] in t;
    if s != [] {
      HeadsAgree(s, t);
      TailsAgree(s, t);
      TailsAgree(t, s);
      AscendingIsUnique(s[1..], t[1..]);
      assert s == [s[0]] + s[1..] && t == [t[0]] + t[1..];
    }
  }

  lemma HeadsAgree(s: seq<string>, t: seq<string>)
    requires Ascending(s) && Ascending(t) && s != [] && t != []
    requires forall x :: x in s <==> x in t
    ensures s[0] == t[0]
  {
    assert s[0] in t && t[0] in s;
    if s[0] != t[0] {
      var i :| 0 <= i < |t| && t[i] == s[0];
      var j :| 0 <= j < |s| && s[j] == t[0];
      assert Strings.Less(t[0], s[0]) && Strings.Less(s[0], t[0]);
      Strings.LessTransitive(t[0], s[0], t[0]);
      Strings.LessIrreflexive(t[0]);
      assert false;
    }
  }

  lemma TailsAgree(s: seq<string>, t: seq<string>)
    requires Ascending(s) && Ascending(t) && s != [] && t != [] && s[0] == t[0]
    requires forall x :: x in s <==> x in t
    ensures forall x :: x in s[1..] ==> x in t[1..]
  {
    forall x | x in s[1..] ensures x in t[1..] {
      var i :| 1 <= i < |s| && s[i] == x;
      assert Strings.Less(s[0], x);
      Strings.LessIrreflexive(x);
      assert x in t;
      var j :| 0 <= j < |t| && t[j] == x;
      assert j != 0;
      assert t[1..][j - 1] == x;
    }
  }

  // ---------------------------------------------------------------- the first provider wins

  /** The object of the first provider in this order that has the model. */
  function FirstWith(slots: Slots, order: seq<string>, id: string): Option<ModelInfo> {
    if order == [] then None
    else if Has(slots, Slot(order[0], id)) then Some(At(slots, Slot(order[0], id)))
    else FirstWith(slots, order[1..], id)
  }

  lemma {:induction false} FirstWithOneMore(slots: Slots, order: seq<string>, provider: string, id: string)
    ensures FirstWith(slots, order + [provider], id) ==
            if FirstWith(slots, order, id).Some? then FirstWith(slots, order, id)
            else if Has(slots, Slot(provider, id)) then Some(At(slots, Slot(provider, id)))
            else None
  {
    if order == [] {
      assert FirstWith(slots, [], id).None?;
      assert ([] + [provider])[1..] == [];
    } else {
      assert (order + [provider])[1..] == order[1..] + [provider];
      FirstWithOneMore(slots, order[1..], provider, id);
    }
  }

  lemma {:induction false} FirstWithFinds(slots: Slots, order: seq<string>, provider: string, id: string)
    requires provider in order && Has(slots, Slot(provider, id))
    ensures FirstWith(slots, order, id).Some?
  {
    if order[0] != provider && !Has(slots, Slot(order[0], id)) {
      assert provider in order[1..];
      FirstWithFinds(slots, order[1..], provider, id);
    }
  }

  lemma {:induction false} FirstWithIsASlot(slots: Slots, order: seq<string>, id: string)
    requires FirstWith(slots, order, id).Some?
    ensures exists p ::
              p in order && Has(slots, Slot(p, id)) && At(slots, Slot(p, id)) == FirstWith(slots, order, id).value
  {
    if Has(slots, Slot(order[0], id)) {
      assert order[0] in order;
    } else {
      FirstWithIsASlot(slots, order[1..], id);
      var p :|
        p in order[1..] && Has(slots, Slot(p, id)) && At(slots, Slot(p, id)) == FirstWith(slots, order[1..], id).value;
      assert p in order;
    }
  }

  /** That is what it says: it has the model, and no provider before it does. */
  lemma {:induction false} FirstWithIsFirst(slots: Slots, order: seq<string>, id: string, k: nat)
    requires k < |order| && Has(slots, Slot(order[k], id))
    requires forall j :: 0 <= j < k ==> !Has(slots, Slot(order[j], id))
    ensures FirstWith(slots, order, id) == Some(At(slots, Slot(order[k], id)))
  {
    if k > 0 {
      assert !Has(slots, Slot(order[0], id));
      FirstWithIsFirst(slots, order[1..], id, k - 1);
    }
  }

  ghost predicate IsFirstWith(global: map<string, ModelInfo>, slots: Slots, order: seq<string>) {
    forall id ::
      if id in global then FirstWith(slots, order, id) == Some(global[id]) else FirstWith(slots, order, id).None?
  }

  /** addProviderModels: a model that is already there stays. */
  method AddProviderModels(global: map<string, ModelInfo>, slots: Slots, provider: string, ghost order: seq<string>)
    returns (global': map<string, ModelInfo>)
    requires IsFirstWith(global, slots, order)
    ensures IsFirstWith(global', slots, order + [provider])
  {
    global' := global;
    if provider in slots {
      var ids := SortStrings(slots[provider].Keys);
      for i := 0 to |ids|
        invariant forall id :: id in global' <==> id in global || id in ids[..i]
        invariant forall id :: id in global' ==>
                    global'[id] == if id in global then global[id] else slots[provider][id]
      {
        if ids[i] !in global' {
          global' := global'[ids[i] := slots[provider][ids[i]]];
        }
      }
      assert ids[..|ids|] == ids;
    }
    forall id ensures if id in global' then FirstWith(slots, order + [provider], id) == Some(global'[id])
                      else FirstWith(slots, order + [provider], id).None?
    {
      FirstWithOneMore(slots, order, provider, id);
    }
  }

  /** rebuildGlobalModelMap: the given order first, then the other providers by name. */
  method RebuildGlobalModelMap(slots: Slots, order: seq<string>)
    returns (global: map<string, ModelInfo>, ghost rest: seq<string>)
    ensures Ascending(rest) && forall p :: p in rest <==> p in slots && p !in order
    ensures IsFirstWith(global, slots, order + rest)
    ensures Coherent(global, slots)
    ensures forall s :: Has(slots, s) ==> s.id in global
  {
    global := map[];
    for i := 0 to |order|
      invariant IsFirstWith(global, slots, order[..i])
    {
      global := AddProviderModels(global, slots, order[i], order[..i]);
      assert order[..i + 1] == order[..i] + [order[i]];
    }
    assert order[..|order|] == order;
    var remaining := SortStrings(slots.Keys - set p | p in order);
    assert order + remaining[..0] == order;
    for i := 0 to |remaining|
      invariant IsFirstWith(global, slots, order + remaining[..i])
    {
      global := AddProviderModels(global, slots, remaining[i], order + remaining[..i]);
      assert order + remaining[..i + 1] == (order + remaining[..i]) + [remaining[i]];
    }
    assert remaining[..|remaining|] == remaining;
    rest := remaining;
    FirstWinsIsCoherent(global, slots, order + rest);
    forall s | Has(slots, s) ensures s.id in global {
      assert s.provider in order + rest;
      FirstWithFinds(slots, order + rest, s.provider, s.id);
    }
  }

  lemma FirstWinsIsCoherent(global: map<string, ModelInfo>, slots: Slots, order: seq<string>)
    requires IsFirstWith(global, slots, order)
    ensures Coherent(global, slots)
  {
    forall id | id in global ensures exists p :: Has(slots, Slot(p, id)) && At(slots, Slot(p, id)) == global[id] {
      FirstWithIsASlot(slots, order, id);
    }
  }

  // ---------------------------------------------------------------- one provider's models

  datatype Model = Model(id: string, metadata: Option<Metadata>)

  predicate Names(m: Model, id: string) {
    Strings.Trim(m.id) == id
  }

  /** The last model of the response with this trimmed ID. */
  function LastNamed(data: seq<Model>, id: string): Option<Model> {
    if data == [] then None
    else if Names(data[|data| - 1], id) then Some(data[|data| - 1])
    else LastNamed(data[..|data| - 1], id)
  }

  ghost predicate Lists(models: map<string, ModelInfo>, data: seq<Model>, provider: string, providerName: string,
                        providerType: string)
    reads models.Values
  {
    && (forall id :: id in models <==> id != "" && LastNamed(data, id).Some?)
    && (forall id :: id in models ==>
          && models[id].model == id && models[id].provider == provider
          && models[id].providerName == providerName && models[id].providerType == providerType
          && LastNamed(data, id).Some? && models[id].metadata == LastNamed(data, id).value.metadata)
  }

  /** modelInfoMapFromResponse: one new object for each ID, the last entry of an ID wins. */
  method ModelInfoMapFromResponse(response: Option<seq<Model>>, provider: string, providerName: string,
                                  providerType: string)
    returns (models: map<string, ModelInfo>)
    ensures Lists(models, if response.Some? then response.value else [], provider, providerName, providerType)
    ensures forall id :: id in models ==> fresh(models[id])
    ensures forall id, other :: id in models && other in models && models[id] == models[other] ==> id == other
  {
    models := map[];
    if response.None? {
      return;
    }
    var data := response.value;
    for i := 0 to |data|
      invariant Lists(models, data[..i], provider, providerName, providerType)
      invariant forall id :: id in models ==> fresh(models[id])
    {
      assert data[..i + 1][..i] == data[..i];
      var id := Strings.Trim(data[i].id);
      if id != "" {
        var info := new ModelInfo(id, provider, providerName, providerType, data[i].metadata);
        models := models[id := info];
      }
    }
    assert data[..|data|] == data;
  }
}
