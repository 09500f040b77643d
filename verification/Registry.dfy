/** Copy-on-write metadata enrichment (internal/providers/registry_metadata.go, configured_models.go and
    internal/modeldata/enricher.go): two maps share ModelInfo objects, published objects are never changed, and the
    chain of replacements keeps the maps pointing at the same objects. */
module Registry {
  import opened Wrappers
  import Strings

  /** Resolved model metadata; what is in it does not matter here. */
  datatype Metadata = Metadata(description: string)

  class ModelInfo {
    const model: string
    const provider: string
    const providerName: string
    const providerType: string
    var metadata: Option<Metadata>

    constructor (model: string, provider: string, providerName: string, providerType: string,
                 metadata: Option<Metadata>)
      ensures this.model == model && this.provider == provider && this.providerName == providerName
      ensures this.providerType == providerType && this.metadata == metadata
    {
      this.model, this.provider, this.providerName, this.providerType := model, provider, providerName, providerType;
      this.metadata := metadata;
    }
  }

  type Slots = map<string, map<string, ModelInfo>>

  type Replacements = map<ModelInfo, ModelInfo>

  // ---------------------------------------------------------------- slots and their replacements

  /** A place in the per-provider maps. */
  datatype Slot = Slot(provider: string, id: string)

  predicate Has(m: Slots, s: Slot) {
    s.provider in m && s.id in m[s.provider]
  }

  function At(m: Slots, s: Slot): ModelInfo
    requires Has(m, s)
  {
    m[s.provider][s.id]
  }

  function With(m: Slots, s: Slot, o: ModelInfo): Slots
    requires Has(m, s)
  {
    m[s.provider := m[s.provider][s.id := o]]
  }

  lemma WithAt(m: Slots, s: Slot, o: ModelInfo, t: Slot)
    requires Has(m, s)
    ensures Has(With(m, s, o), t) <==> Has(m, t)
    ensures Has(m, t) ==> At(With(m, s, o), t) == if s == t then o else At(m, t)
    ensures With(m, s, o).Keys == m.Keys
  {
  }

  /** The objects in the slots. */
  ghost function Objects(m: Slots): set<ModelInfo> {
    set p, id | p in m && id in m[p] :: m[p][id]
  }

  ghost predicate SameSlots(a: Slots, b: Slots) {
    a.Keys == b.Keys && forall s :: Has(a, s) <==> Has(b, s)
  }

  /** Only this slot's object may be another. */
  ghost predicate OnlyChanges(before: Slots, after: Slots, s: Slot) {
    SameSlots(before, after) && forall t :: t != s && Has(before, t) ==> At(after, t) == At(before, t)
  }

  lemma WithOnlyChanges(m: Slots, s: Slot, o: ModelInfo)
    requires Has(m, s)
    ensures OnlyChanges(m, With(m, s, o), s)
  {
    forall t ensures Has(With(m, s, o), t) <==> Has(m, t) {
      WithAt(m, s, o, t);
    }
  }

  lemma SameIds(a: Slots, b: Slots, provider: string)
    requires SameSlots(a, b) && provider in a
    ensures provider in b && b[provider].Keys == a[provider].Keys
  {
    forall id ensures id in a[provider] <==> id in b[provider] {
      assert Has(a, Slot(provider, id)) <==> Has(b, Slot(provider, id));
    }
  }

  /** Different slots hold different objects. */
  ghost predicate Distinct(m: Slots) {
    forall s, t :: Has(m, s) && Has(m, t) && At(m, s) == At(m, t) ==> s == t
  }

  ghost predicate Occurs(m: Slots, o: ModelInfo) {
    exists s :: Has(m, s) && At(m, s) == o
  }

  /** What a base object has become. */
  function Current(replaced: Replacements, o: ModelInfo): ModelInfo {
    if o in replaced then replaced[o] else o
  }

  /** `now` is `base` after the replacements: a slot holds its base object, or what has replaced it. */
  ghost predicate Follows(base: Slots, now: Slots, replaced: Replacements) {
    && SameSlots(base, now)
    && (forall s :: Has(base, s) ==> At(now, s) == Current(replaced, At(base, s)))
    && (forall o :: o in replaced ==> Occurs(base, o) && !Occurs(base, replaced[o]))
    && Distinct(now)
  }

  /** The reverse map finds the base object of every replaced slot, and nothing for the others. */
  ghost predicate Reverses(base: Slots, now: Slots, replaced: Replacements, reverse: Replacements) {
    SameSlots(base, now) &&
    forall s :: Has(base, s) ==> SlotReverses(At(base, s), At(now, s), replaced, reverse)
  }

  predicate SlotReverses(original: ModelInfo, current: ModelInfo, replaced: Replacements, reverse: Replacements) {
    if original in replaced then current in reverse && reverse[current] == original else current !in reverse
  }

  lemma ReplacingFollows(base: Slots, now: Slots, replaced: Replacements, s: Slot, next: ModelInfo)
    requires Distinct(base) && Follows(base, now, replaced) && Has(base, s)
    requires !Occurs(base, next) && !Occurs(now, next)
    ensures Follows(base, With(now, s, next), replaced[At(base, s) := next])
  {
    var after, replaced' := With(now, s, next), replaced[At(base, s) := next];
    forall t ensures Has(after, t) <==> Has(now, t) {
      WithAt(now, s, next, t);
    }
    forall t | Has(base, t) ensures At(after, t) == Current(replaced', At(base, t)) {
      WithAt(now, s, next, t);
    }
    forall t, u | Has(after, t) && Has(after, u) && At(after, t) == At(after, u) ensures t == u {
      WithAt(now, s, next, t);
      WithAt(now, s, next, u);
    }
  }

  lemma ReplacingReverses(base: Slots, now: Slots, replaced: Replacements, reverse: Replacements, s: Slot,
                          next: ModelInfo)
    requires Distinct(base) && Follows(base, now, replaced) && Reverses(base, now, replaced, reverse)
    requires Has(base, s) && !Occurs(base, next) && !Occurs(now, next)
    ensures Reverses(base, With(now, s, next), replaced[At(base, s) := next], reverse[next := At(base, s)])
  {
    var after := With(now, s, next);
    forall t ensures Has(after, t) <==> Has(now, t) {
      WithAt(now, s, next, t);
    }
    forall t | Has(base, t)
      ensures SlotReverses(At(base, t), At(after, t), replaced[At(base, s) := next], reverse[next := At(base, s)])
    {
      WithAt(now, s, next, t);
      assert SlotReverses(At(base, t), At(now, t), replaced, reverse);
      assert At(now, t) != next;
    }
  }

  // ---------------------------------------------------------------- coherence of the two maps

  /** Every entry of the global map is the object of one of that model's provider slots. */
  ghost predicate Coherent(models: map<string, ModelInfo>, slots: Slots) {
    forall id :: id in models ==> exists p :: Has(slots, Slot(p, id)) && At(slots, Slot(p, id)) == models[id]
  }

  /** The global map after the replacements. */
  function Redirected(models: map<string, ModelInfo>, replaced: Replacements): map<string, ModelInfo> {
    map id | id in models :: Current(replaced, models[id])
  }

  /** An entry of the global map that was a slot's object becomes that same slot's object, however often the slot was
      replaced; so a coherent pair of maps stays coherent. */
  lemma RedirectingMovesWithSlots(models: map<string, ModelInfo>, base: Slots, now: Slots, replaced: Replacements)
    requires Follows(base, now, replaced)
    ensures forall id, s :: id in models && Has(base, s) && At(base, s) == models[id] ==>
              Has(now, s) && At(now, s) == Redirected(models, replaced)[id]
    ensures Coherent(models, base) ==> Coherent(Redirected(models, replaced), now)
  {
    if Coherent(models, base) {
      forall id | id in models
        ensures exists p :: Has(now, Slot(p, id)) && At(now, Slot(p, id)) == Redirected(models, replaced)[id]
      {
        var p :| Has(base, Slot(p, id)) && At(base, Slot(p, id)) == models[id];
        assert Has(now, Slot(p, id)) && At(now, Slot(p, id)) == Redirected(models, replaced)[id];
      }
    }
  }

  // ---------------------------------------------------------------- what enrichment computes

  type Resolver = (string, string) -> Option<Metadata>

  type Overrides = map<string, map<string, Option<Metadata>>>

  /** The provider type a model is resolved under. */
  function ResolvedType(providerType: string, provider: string, providerTypes: map<string, string>): string {
    if Strings.Trim(providerType) != "" then Strings.Trim(providerType)
    else if provider in providerTypes then Strings.Trim(providerTypes[provider])
    else ""
  }

  /** Resolved metadata replaces the old; a model that is not in the list keeps what it has. */
  function Enriched(resolved: Option<Metadata>, metadata: Option<Metadata>): Option<Metadata> {
    if resolved.Some? then resolved else metadata
  }

  /** The configured override of a slot, unless there is none or it is effectively empty. */
  function OverrideOf(overrides: Overrides, isEmpty: Metadata -> bool, s: Slot): Option<Metadata> {
    if s.provider in overrides && s.id in overrides[s.provider]
       && overrides[s.provider][s.id].Some? && !isEmpty(overrides[s.provider][s.id].value)
    then overrides[s.provider][s.id] else None
  }

  function Overridden(override: Option<Metadata>, merge: (Option<Metadata>, Metadata) -> Metadata,
                      metadata: Option<Metadata>): Option<Metadata>
  {
    if override.Some? then Some(merge(metadata, override.value)) else metadata
  }

  /** The same model with other metadata, in a new object unless nothing changed. */
  ghost predicate Revises(before: ModelInfo, after: ModelInfo, metadata: Option<Metadata>)
    reads after
  {
    && after.model == before.model && after.provider == before.provider
    && after.providerName == before.providerName && after.providerType == before.providerType
    && after.metadata == metadata
  }

  /** A slot's object after enrichment: the same one if the list does not know the model, else a copy with the
      resolved metadata. */
  ghost predicate EnrichedTo(before: ModelInfo, after: ModelInfo, id: string, resolve: Resolver,
                             providerTypes: map<string, string>)
    reads before, after
  {
    var resolved := resolve(ResolvedType(before.providerType, before.provider, providerTypes), id);
    Revises(before, after, Enriched(resolved, before.metadata)) && (resolved.None? ==> after == before)
  }

  /** A slot's object after its override: the same one if that changes nothing, else a copy with the merged metadata. */
  ghost predicate OverriddenTo(before: ModelInfo, after: ModelInfo, override: Option<Metadata>,
                               merge: (Option<Metadata>, Metadata) -> Metadata)
    reads before, after
  {
    && Revises(before, after, Overridden(override, merge, before.metadata))
    && (after.metadata == before.metadata ==> after == before)
  }

  lemma ReplacementsDiffer(base: Slots, now: Slots, replaced: Replacements, o: ModelInfo, q: ModelInfo)
    requires Follows(base, now, replaced) && o in replaced && q in replaced && o != q
    ensures replaced[o] != replaced[q]
  {
    var s :| Has(base, s) && At(base, s) == o;
    var t :| Has(base, t) && At(base, t) == q;
    assert At(now, s) == replaced[o] && At(now, t) == replaced[q];
  }

  class ModelRegistry {
    const providerTypes: map<string, string>
    const overrides: Overrides
    const merge: (Option<Metadata>, Metadata) -> Metadata
    const isEmpty: Metadata -> bool
    var list: Option<Resolver>
    var models: map<string, ModelInfo>
    var modelsByProvider: Slots

    constructor (providerTypes: map<string, string>, overrides: Overrides,
                 merge: (Option<Metadata>, Metadata) -> Metadata, isEmpty: Metadata -> bool,
                 list: Option<Resolver>, models: map<string, ModelInfo>, modelsByProvider: Slots)
      ensures this.providerTypes == providerTypes && this.overrides == overrides
      ensures this.merge == merge && this.isEmpty == isEmpty && this.list == list
      ensures this.models == models && this.modelsByProvider == modelsByProvider
    {
      this.providerTypes, this.overrides, this.merge, this.isEmpty := providerTypes, overrides, merge, isEmpty;
      this.list, this.models, this.modelsByProvider := list, models, modelsByProvider;
    }

    /** registryAccessor.SetMetadata on a published map: the slot gets a changed copy, and the copy is noted. */
    method SetMetadata(s: Slot, metadata: Metadata, replaced: Replacements, ghost base: Slots)
      returns (replaced': Replacements)
      requires Distinct(base) && Follows(base, modelsByProvider, replaced)
      requires Has(modelsByProvider, s) && At(modelsByProvider, s) == At(base, s)
      modifies `modelsByProvider
      ensures Follows(base, modelsByProvider, replaced')
      ensures OnlyChanges(old(modelsByProvider), modelsByProvider, s)
      ensures fresh(At(modelsByProvider, s)) && Revises(At(base, s), At(modelsByProvider, s), Some(metadata))
    {
      var info := At(modelsByProvider, s);
      var next := new ModelInfo(info.model, info.provider, info.providerName, info.providerType, Some(metadata));
      ReplacingFollows(base, modelsByProvider, replaced, s, next);
      WithOnlyChanges(modelsByProvider, s, next);
      modelsByProvider := With(modelsByProvider, s, next);
      replaced' := replaced[info := next];
    }

    /** Enrichment has dealt with all slots but those still to do. */
    ghost predicate Enriching(base: Slots, now: Slots, todo: set<Slot>, resolve: Resolver)
      reads Objects(base), Objects(now)
    {
      forall s :: Has(base, s) && Has(now, s) ==> SlotEnriching(base, now, todo, resolve, s)
    }

    ghost predicate SlotEnriching(base: Slots, now: Slots, todo: set<Slot>, resolve: Resolver, s: Slot)
      requires Has(base, s) && Has(now, s)
      reads At(base, s), At(now, s)
    {
      if s in todo then At(now, s) == At(base, s)
      else EnrichedTo(At(base, s), At(now, s), s.id, resolve, providerTypes)
    }

    lemma EnrichingOneMore(base: Slots, before: Slots, after: Slots, todo: set<Slot>, resolve: Resolver, s: Slot)
      requires Enriching(base, before, todo, resolve) && OnlyChanges(before, after, s)
      requires Has(base, s) && Has(after, s) && EnrichedTo(At(base, s), At(after, s), s.id, resolve, providerTypes)
      ensures Enriching(base, after, todo - {s}, resolve)
    {
      forall t | Has(base, t) && Has(after, t) ensures SlotEnriching(base, after, todo - {s}, resolve, t) {
        assert t != s ==> SlotEnriching(base, before, todo, resolve, t);
      }
    }

    lemma TodoIsUntouched(base: Slots, now: Slots, todo: set<Slot>, resolve: Resolver, s: Slot)
      requires Enriching(base, now, todo, resolve) && SameSlots(base, now) && s in todo && Has(now, s)
      ensures Has(base, s) && At(now, s) == At(base, s)
    {
      assert SlotEnriching(base, now, todo, resolve, s);
    }

    /** The resolved metadata of one slot. */
    method EnrichSlot(s: Slot, resolve: Resolver, replaced: Replacements, enriched: nat, ghost base: Slots)
      returns (replaced': Replacements, enriched': nat)
      requires Distinct(base) && Follows(base, modelsByProvider, replaced)
      requires Has(modelsByProvider, s) && At(modelsByProvider, s) == At(base, s)
      modifies `modelsByProvider
      ensures Follows(base, modelsByProvider, replaced')
      ensures OnlyChanges(old(modelsByProvider), modelsByProvider, s)
      ensures EnrichedTo(At(base, s), At(modelsByProvider, s), s.id, resolve, providerTypes)
    {
      replaced', enriched' := replaced, enriched;
      var info := At(modelsByProvider, s);
      var resolved := resolve(ResolvedType(info.providerType, info.provider, providerTypes), s.id);
      if resolved.Some? {
        replaced' := SetMetadata(s, resolved.value, replaced', base);
        enriched' := enriched' + 1;
      }
    }

    /** One step of the loop below. */
    method EnrichOne(s: Slot, resolve: Resolver, replaced: Replacements, enriched: nat, ghost base: Slots,
                     ghost todo: set<Slot>)
      returns (replaced': Replacements, enriched': nat)
      requires Distinct(base) && Follows(base, modelsByProvider, replaced)
      requires Enriching(base, modelsByProvider, todo, resolve) && s in todo && Has(modelsByProvider, s)
      modifies `modelsByProvider
      ensures Follows(base, modelsByProvider, replaced')
      ensures Enriching(base, modelsByProvider, todo - {s}, resolve)
    {
      ghost var before := modelsByProvider;
      TodoIsUntouched(base, before, todo, resolve, s);
      replaced', enriched' := EnrichSlot(s, resolve, replaced, enriched, base);
      EnrichingOneMore(base, before, modelsByProvider, todo, resolve, s);
    }

    /** modeldata.Enrich over one provider's models, in any order. */
    method Enrich(provider: string, resolve: Resolver, replaced: Replacements, enriched: nat, ghost base: Slots,
                  ghost todo: set<Slot>)
      returns (replaced': Replacements, enriched': nat)
      requires Distinct(base) && Follows(base, modelsByProvider, replaced) && provider in base
      requires Enriching(base, modelsByProvider, todo, resolve) && SlotsOf(provider, base[provider].Keys) <= todo
      modifies `modelsByProvider
      ensures Follows(base, modelsByProvider, replaced')
      ensures Enriching(base, modelsByProvider, todo - SlotsOf(provider, base[provider].Keys), resolve)
    {
      replaced', enriched' := replaced, enriched;
      SameIds(base, modelsByProvider, provider);
      var ids := modelsByProvider[provider].Keys;
      ghost var left := todo;
      while ids != {}
        invariant ids <= base[provider].Keys && left == todo - SlotsOf(provider, base[provider].Keys - ids)
        invariant Follows(base, modelsByProvider, replaced') && Enriching(base, modelsByProvider, left, resolve)
        decreases |ids|
      {
        var id :| id in ids;
        assert Has(base, Slot(provider, id));
        replaced', enriched' := EnrichOne(Slot(provider, id), resolve, replaced', enriched', base, left);
        ids, left := ids - {id}, left - {Slot(provider, id)};
      }
      assert base[provider].Keys - ids == base[provider].Keys;
    }

    /** All slots of these providers. */
    ghost function AllSlots(base: Slots, providers: set<string>): set<Slot> {
      set p, id | p in providers && p in base && id in base[p] :: Slot(p, id)
    }

    lemma AllSlotsWithout(base: Slots, providers: set<string>, provider: string)
      requires provider in providers && provider in base
      ensures SlotsOf(provider, base[provider].Keys) <= AllSlots(base, providers)
      ensures AllSlots(base, providers - {provider}) ==
              AllSlots(base, providers) - SlotsOf(provider, base[provider].Keys)
    {
    }

    /** enrichProviderModelMaps over all providers, in any order. */
    method EnrichProviderModelMaps(resolve: Resolver) returns (replaced: Replacements, enriched: nat)
      requires Distinct(modelsByProvider)
      modifies `modelsByProvider
      ensures Follows(old(modelsByProvider), modelsByProvider, replaced)
      ensures Enriching(old(modelsByProvider), modelsByProvider, {}, resolve)
    {
      replaced, enriched := map[], 0;
      ghost var base := modelsByProvider;
      var providers := modelsByProvider.Keys;
      while providers != {}
        invariant providers <= base.Keys && Follows(base, modelsByProvider, replaced)
        invariant Enriching(base, modelsByProvider, AllSlots(base, providers), resolve)
        decreases |providers|
      {
        var provider :| provider in providers;
        AllSlotsWithout(base, providers, provider);
        SameIds(base, modelsByProvider, provider);
        if modelsByProvider[provider].Keys != {} {
          replaced, enriched := Enrich(provider, resolve, replaced, enriched, base, AllSlots(base, providers));
        }
        providers := providers - {provider};
      }
      assert AllSlots(base, providers) == {};
    }

    /** Layers one override onto a slot, replacing what may itself be a replacement. */
    method ApplyOverride(s: Slot, override: Metadata, replaced: Replacements, reverse: Replacements, applied: nat,
                         ghost base: Slots)
      returns (replaced': Replacements, reverse': Replacements, applied': nat)
      requires Distinct(base) && Follows(base, modelsByProvider, replaced)
               && Reverses(base, modelsByProvider, replaced, reverse)
      requires Has(modelsByProvider, s)
      modifies `modelsByProvider
      ensures Follows(base, modelsByProvider, replaced') && Reverses(base, modelsByProvider, replaced', reverse')
      ensures OnlyChanges(old(modelsByProvider), modelsByProvider, s)
      ensures OverriddenTo(old(At(modelsByProvider, s)), At(modelsByProvider, s), Some(override), merge)
    {
      var current := At(modelsByProvider, s);
      var merged := Some(merge(current.metadata, override));
      if current.metadata == merged {
        return replaced, reverse, applied;
      }
      var next := new ModelInfo(current.model, current.provider, current.providerName, current.providerType, merged);
      assert SlotReverses(At(base, s), current, replaced, reverse);
      assert At(modelsByProvider, s) == Current(replaced, At(base, s));
      ReplacingFollows(base, modelsByProvider, replaced, s, next);
      WithOnlyChanges(modelsByProvider, s, next);
      ReplacingReverses(base, modelsByProvider, replaced, reverse, s, next);
      modelsByProvider := With(modelsByProvider, s, next);
      if current in reverse {
        replaced' := replaced[reverse[current] := next];
        reverse' := reverse[next := reverse[current]];
      } else {
        replaced' := replaced[current := next];
        reverse' := reverse[next := current];
      }
      applied' := applied + 1;
    }

    /** The overrides have been layered onto the slots, but for those still to do. */
    ghost predicate Overriding(middle: Slots, now: Slots, todo: set<Slot>)
      reads Objects(middle), Objects(now)
    {
      forall s :: Has(middle, s) && Has(now, s) ==> SlotOverriding(middle, now, todo, s)
    }

    ghost predicate SlotOverriding(middle: Slots, now: Slots, todo: set<Slot>, s: Slot)
      requires Has(middle, s) && Has(now, s)
      reads At(middle, s), At(now, s)
    {
      if s in todo then At(now, s) == At(middle, s)
      else OverriddenTo(At(middle, s), At(now, s), OverrideOf(overrides, isEmpty, s), merge)
    }

    lemma OverridingOneMore(middle: Slots, before: Slots, after: Slots, todo: set<Slot>, s: Slot)
      requires Overriding(middle, before, todo) && OnlyChanges(before, after, s)
      requires Has(middle, s) && Has(after, s) ==> SlotOverriding(middle, after, todo - {s}, s)
      ensures Overriding(middle, after, todo - {s})
    {
      forall t | Has(middle, t) && Has(after, t) ensures SlotOverriding(middle, after, todo - {s}, t) {
        assert t != s ==> SlotOverriding(middle, before, todo, t);
      }
    }

    /** One entry of the loop below. */
    method ApplyOverrideAt(s: Slot, replaced: Replacements, reverse: Replacements, applied: nat,
                           ghost base: Slots, ghost middle: Slots, ghost todo: set<Slot>)
      returns (replaced': Replacements, reverse': Replacements, applied': nat)
      requires Distinct(base) && Follows(base, modelsByProvider, replaced)
               && Reverses(base, modelsByProvider, replaced, reverse)
      requires SameSlots(base, middle) && Overriding(middle, modelsByProvider, todo) && s in todo
      requires s.provider in modelsByProvider && s.provider in overrides && s.id in overrides[s.provider]
      modifies `modelsByProvider
      ensures Follows(base, modelsByProvider, replaced') && Reverses(base, modelsByProvider, replaced', reverse')
      ensures Overriding(middle, modelsByProvider, todo - {s})
    {
      replaced', reverse', applied' := replaced, reverse, applied;
      ghost var before := modelsByProvider;
      var override := overrides[s.provider][s.id];
      if override.Some? && !isEmpty(override.value) && s.id in modelsByProvider[s.provider] {
        assert SlotOverriding(middle, before, todo, s);
        replaced', reverse', applied' := ApplyOverride(s, override.value, replaced', reverse', applied', base);
      }
      OverridingOneMore(middle, before, modelsByProvider, todo, s);
    }

    ghost function SlotsOf(provider: string, ids: set<string>): set<Slot> {
      set id | id in ids :: Slot(provider, id)
    }

    /** The overrides of one provider, in any order. */
    method ApplyProviderOverrides(provider: string, replaced: Replacements, reverse: Replacements, applied: nat,
                                  ghost base: Slots, ghost middle: Slots, ghost todo: set<Slot>)
      returns (replaced': Replacements, reverse': Replacements, applied': nat)
      requires Distinct(base) && Follows(base, modelsByProvider, replaced)
               && Reverses(base, modelsByProvider, replaced, reverse)
      requires SameSlots(base, middle) && Overriding(middle, modelsByProvider, todo)
      requires provider in modelsByProvider && provider in overrides
               && SlotsOf(provider, overrides[provider].Keys) <= todo
      modifies `modelsByProvider
      ensures Follows(base, modelsByProvider, replaced') && Reverses(base, modelsByProvider, replaced', reverse')
      ensures Overriding(middle, modelsByProvider, todo - SlotsOf(provider, overrides[provider].Keys))
    {
      replaced', reverse', applied' := replaced, reverse, applied;
      var ids := overrides[provider].Keys;
      ghost var left := todo;
      while ids != {}
        invariant ids <= overrides[provider].Keys && modelsByProvider.Keys == middle.Keys
        invariant left == todo - SlotsOf(provider, overrides[provider].Keys - ids)
        invariant Follows(base, modelsByProvider, replaced') && Reverses(base, modelsByProvider, replaced', reverse')
        invariant Overriding(middle, modelsByProvider, left)
        decreases |ids|
      {
        var id :| id in ids;
        replaced', reverse', applied' :=
          ApplyOverrideAt(Slot(provider, id), replaced', reverse', applied', base, middle, left);
        ids, left := ids - {id}, left - {Slot(provider, id)};
      }
      assert overrides[provider].Keys - ids == overrides[provider].Keys;
    }

    /** The slots the configuration names. */
    ghost function Pending(providers: set<string>): set<Slot> {
      set p, id | p in providers && p in overrides && id in overrides[p] :: Slot(p, id)
    }

    lemma PendingWithout(providers: set<string>, provider: string)
      requires provider in providers && provider in overrides
      ensures SlotsOf(provider, overrides[provider].Keys) <= Pending(providers)
      ensures Pending(providers - {provider}) == Pending(providers) - SlotsOf(provider, overrides[provider].Keys)
    {
    }

    /** The map from each replacement back to its original. */
    method Inverted(replaced: Replacements, ghost base: Slots) returns (reverse: Replacements)
      requires Follows(base, modelsByProvider, replaced)
      ensures Reverses(base, modelsByProvider, replaced, reverse)
    {
      reverse := map[];
      var originals := replaced.Keys;
      while originals != {}
        invariant originals <= replaced.Keys
        invariant forall o :: o in replaced && o !in originals ==> replaced[o] in reverse && reverse[replaced[o]] == o
        invariant forall r :: r in reverse ==> exists o :: o in replaced && replaced[o] == r
        decreases |originals|
      {
        var original :| original in originals;
        originals := originals - {original};
        forall o | o in replaced && o != original ensures replaced[o] != replaced[original] {
          ReplacementsDiffer(base, modelsByProvider, replaced, o, original);
        }
        reverse := reverse[replaced[original] := original];
      }
      forall s | Has(base, s) ensures SlotReverses(At(base, s), At(modelsByProvider, s), replaced, reverse) {
        assert At(modelsByProvider, s) == Current(replaced, At(base, s));
        assert Occurs(base, At(base, s));
      }
    }

    /** applyConfigMetadataOverrides on published maps. */
    method ApplyConfigMetadataOverrides(replaced: Replacements, ghost base: Slots)
      returns (replaced': Replacements, applied: nat)
      requires Distinct(base) && Follows(base, modelsByProvider, replaced)
      modifies `modelsByProvider
      ensures Follows(base, modelsByProvider, replaced')
      ensures Overriding(old(modelsByProvider), modelsByProvider, {})
    {
      replaced', applied := replaced, 0;
      if overrides.Keys == {} {
        return;
      }
      var reverse := Inverted(replaced, base);
      ghost var middle := modelsByProvider;
      var providers := overrides.Keys;
      while providers != {}
        invariant providers <= overrides.Keys && SameSlots(base, middle)
        invariant Follows(base, modelsByProvider, replaced') && Reverses(base, modelsByProvider, replaced', reverse)
        invariant Overriding(middle, modelsByProvider, Pending(providers))
        decreases |providers|
      {
        var provider :| provider in providers;
        PendingWithout(providers, provider);
        if provider in modelsByProvider {
          replaced', reverse, applied :=
            ApplyProviderOverrides(provider, replaced', reverse, applied, base, middle, Pending(providers));
        }
        providers := providers - {provider};
      }
      assert Pending(providers) == {};
    }

    /** What enrichment and overrides together make of a slot's object. */
    ghost predicate LayeredTo(before: ModelInfo, after: ModelInfo, s: Slot)
      reads this`list, before, after
    {
      var resolved :=
        if list.Some? then list.value(ResolvedType(before.providerType, before.provider, providerTypes), s.id)
        else None;
      var override := OverrideOf(overrides, isEmpty, s);
      && Revises(before, after, Overridden(override, merge, Enriched(resolved, before.metadata)))
      && (resolved.None? && after.metadata == before.metadata ==> after == before)
    }

    /** What that comes to: the metadata the list resolves the model to, or else what it had; with a configured override
        that is not empty, what the merge makes of that and the override. A model is resolved under its provider's type,
        the one it carries before the one configured. */
    lemma LayeredMetadataIs(before: ModelInfo, after: ModelInfo, s: Slot)
      requires LayeredTo(before, after, s)
      ensures var carried := Strings.Trim(before.providerType);
              var under := if carried != "" then carried
                           else if before.provider in providerTypes then Strings.Trim(providerTypes[before.provider])
                           else "";
              var known := if list.Some? && list.value(under, s.id).Some? then list.value(under, s.id)
                           else before.metadata;
              var configured := s.provider in overrides && s.id in overrides[s.provider]
                                && overrides[s.provider][s.id].Some? && !isEmpty(overrides[s.provider][s.id].value);
        && (!configured ==> after.metadata == known)
        && (configured ==> after.metadata == Some(merge(known, overrides[s.provider][s.id].value)))
        && after.model == before.model && after.provider == before.provider
        && after.providerName == before.providerName && after.providerType == before.providerType
    {
    }

    ghost predicate Layered(base: Slots, now: Slots)
      reads this`list, Objects(base), Objects(now)
    {
      forall s :: Has(base, s) && Has(now, s) ==> LayeredTo(At(base, s), At(now, s), s)
    }

    /** Enriching and overriding, one after the other. */
    method LayerMetadata() returns (replaced: Replacements)
      requires Distinct(modelsByProvider)
      modifies `modelsByProvider
      ensures Follows(old(modelsByProvider), modelsByProvider, replaced)
      ensures Layered(old(modelsByProvider), modelsByProvider)
    {
      ghost var base := modelsByProvider;
      var applied;
      replaced := map[];
      if list.Some? {
        var enriched;
        replaced, enriched := EnrichProviderModelMaps(list.value);
      }
      ghost var middle := modelsByProvider;
      replaced, applied := ApplyConfigMetadataOverrides(replaced, base);
    }

    /** enrichModelsLocked: the resolved metadata first, the configured overrides on top, then the global map. */
    method EnrichModels()
      requires Distinct(modelsByProvider)
      modifies `models, `modelsByProvider
      // Nothing to do without models, or without a list and overrides.
      ensures models.Keys == old(models.Keys) && SameSlots(old(modelsByProvider), modelsByProvider)
      ensures old(models) == map[] || (list.None? && overrides == map[]) ==>
                models == old(models) && modelsByProvider == old(modelsByProvider)
      // Every slot ends with the layered metadata, in a new object only if that changes it; published objects stay as
      // they are.
      ensures old(models) != map[] ==> Layered(old(modelsByProvider), modelsByProvider)
      // The two maps move together.
      ensures forall id, s ::
                id in old(models) && Has(old(modelsByProvider), s)
                && old(At(modelsByProvider, s)) == old(models)[id] ==>
                At(modelsByProvider, s) == models[id]
      ensures Coherent(old(models), old(modelsByProvider)) ==> Coherent(models, modelsByProvider)
      ensures Distinct(modelsByProvider)
    {
      if models.Keys == {} {
        return;
      }
      if list.None? && overrides.Keys == {} {
        return;
      }
      ghost var base := modelsByProvider;
      var replaced := LayerMetadata();
      RedirectingMovesWithSlots(models, base, modelsByProvider, replaced);
      models := Redirected(models, replaced);
    }
  }
}
