/** Model aliases (internal/modeldata/types.go and merger.go): the index of alias targets, and which target an alias
    resolves to. Maps are iterated in any order. */
module AliasIndex {
  import opened Wrappers
  import Strings

  /** A canonical model; with a provider type if the alias was qualified by one. */
  datatype AliasTarget = AliasTarget(modelRef: string, providerType: string)

  /** The model IDs a provider uses for one of its models, if it names any. */
  datatype ProviderModel = ProviderModel(providerModelID: Option<string>, customModelID: Option<string>)

  // ---------------------------------------------------------------- strings.Cut

  function Cut(s: string): Option<(string, string)> {
    if s == "" then None
    else if s[0] == '/' then Some(("", s[1..]))
    else match Cut(s[1..])
      case None => None
      case Some((before, after)) => Some(([s[0]] + before, after))
  }

  lemma {:induction false} CutIsAtFirstSlash(s: string, before: string, after: string)
    ensures Cut(s) == Some((before, after)) <==> '/' !in before && s == before + "/" + after
  {
    if s != "" {
      if s[0] == '/' {
        assert s == "/" + s[1..];
        assert before != "" && s == before + "/" + after ==> before[0] == s[0];
        if before == "" && s == before + "/" + after {
          assert s == "/" + after;
          assert s[1..] == after;
        }
      } else if before != "" {
        CutIsAtFirstSlash(s[1..], before[1..], after);
        assert before == [before[0]] + before[1..];
        assert s == [s[0]] + s[1..];
        assert before[1..] + "/" + after == (before + "/" + after)[1..];
      } else {
        assert (before + "/" + after)[0] == '/';
      }
    }
  }

  // ---------------------------------------------------------------- what the list declares

  function ActualModelID(m: ProviderModel): Option<string> {
    if m.providerModelID.Some? && Strings.Trim(m.providerModelID.value) != ""
    then Some(Strings.Trim(m.providerModelID.value))
    else if m.customModelID.Some? && Strings.Trim(m.customModelID.value) != ""
    then Some(Strings.Trim(m.customModelID.value))
    else None
  }

  lemma TrimmedX()
    ensures Strings.Trim("x") == "x"
  {
    Strings.TrimFixesTrimmed("x");
  }

  type AliasTargets = map<string, seq<AliasTarget>>

  /** A model with these aliases declares this target under this alias: plainly, or behind a known provider. */
  ghost predicate DeclaresIn(providers: set<string>, ref: string, aliases: seq<string>, alias: string, t: AliasTarget) {
    && t.modelRef == ref && alias != ""
    && (|| (t.providerType == "" && alias in aliases)
        || (t.providerType != "" && t.providerType in providers && '/' !in t.providerType
            && t.providerType + "/" + alias in aliases))
  }

  predicate Holds(index: AliasTargets, alias: string, t: AliasTarget) {
    alias in index && t in index[alias]
  }

  ghost predicate NoDuplicates(index: AliasTargets) {
    forall alias, i, j :: alias in index && 0 <= i < j < |index[alias]| ==> index[alias][i] != index[alias][j]
  }

  // ---------------------------------------------------------------- which target wins

  function AliasTargetScore(providerType: string, t: AliasTarget): nat {
    if t.providerType == "" then 1
    else if providerType != "" && t.providerType == providerType then 2
    else 0
  }

  ghost function AsSet<T>(s: seq<T>): set<T> {
    set x | x in s
  }

  /** The models of the best-scoring targets. */
  ghost function BestRefs(providerType: string, targets: set<AliasTarget>): set<string> {
    set t | t in targets && AliasTargetScore(providerType, t) > 0
            && (forall u :: u in targets ==>
                AliasTargetScore(providerType, u) <= AliasTargetScore(providerType, t)) :: t.modelRef
  }

  /** If the request names a provider type and some target is qualified by it, the best models are those of such
      targets; else they are those of the unqualified ones. */
  lemma BestRefsAre(providerType: string, targets: set<AliasTarget>, ref: string)
    ensures ref in BestRefs(providerType, targets) <==>
            if providerType != "" && exists u :: u in targets && u.providerType == providerType
            then exists t :: t in targets && t.providerType == providerType && t.modelRef == ref
            else exists t :: t in targets && t.providerType == "" && t.modelRef == ref
  {
  }

  /** Those of them that the provider overrides. */
  ghost function OverriddenRefs(providerType: string, refs: set<string>, providerModels: set<string>): set<string> {
    set ref | ref in refs && providerType + "/" + ref in providerModels
  }

  lemma OverriddenOneMore(providerType: string, refs: seq<string>, ref: string, providerModels: set<string>)
    requires ref !in refs
    ensures var before := OverriddenRefs(providerType, AsSet(refs), providerModels);
            ref !in before && OverriddenRefs(providerType, AsSet(refs + [ref]), providerModels) ==
            if providerType + "/" + ref in providerModels then before + {ref} else before
  {
    assert AsSet(refs + [ref]) == AsSet(refs) + {ref};
  }

  /** This model is the only best one, or the only best one with a provider override. */
  ghost predicate Wins(providerType: string, targets: set<AliasTarget>, providerModels: set<string>, ref: string) {
    var best := BestRefs(providerType, targets);
    best == {ref} || (providerType != "" && OverriddenRefs(providerType, best, providerModels) == {ref})
  }

  /** At most one model wins. */
  lemma WinnerIsUnique(providerType: string, targets: set<AliasTarget>, providerModels: set<string>, a: string,
                       b: string)
    requires Wins(providerType, targets, providerModels, a) && Wins(providerType, targets, providerModels, b)
    ensures a == b
  {
    var best := BestRefs(providerType, targets);
    assert a in best && b in best by {
      assert a in {a} && b in {b};
    }
    if best != {a} && best != {b} {
      assert a in OverriddenRefs(providerType, best, providerModels);
    }
  }

  /** The best score of each model among the first targets. */
  ghost predicate ScoresOf(scores: map<string, nat>, providerType: string, targets: seq<AliasTarget>) {
    && (forall t :: t in targets && AliasTargetScore(providerType, t) > 0 ==>
          t.modelRef in scores && AliasTargetScore(providerType, t) <= scores[t.modelRef])
    && (forall ref :: ref in scores ==>
          && scores[ref] > 0
          && exists t :: t in targets && t.modelRef == ref && AliasTargetScore(providerType, t) == scores[ref])
  }

  method ScoreTargets(providerType: string, targets: seq<AliasTarget>) returns (scores: map<string, nat>)
    ensures ScoresOf(scores, providerType, targets)
  {
    scores := map[];
    for i := 0 to |targets|
      invariant ScoresOf(scores, providerType, targets[..i])
    {
      assert targets[..i + 1] == targets[..i] + [targets[i]];
      var score := AliasTargetScore(providerType, targets[i]);
      if score == 0 {
        continue;
      }
      if score > if targets[i].modelRef in scores then scores[targets[i].modelRef] else 0 {
        ghost var before := scores;
        scores := scores[targets[i].modelRef := score];
        forall ref | ref in scores
          ensures exists t ::
                    t in targets[..i + 1] && t.modelRef == ref && AliasTargetScore(providerType, t) == scores[ref]
        {
          assert targets[i] in targets[..i + 1];
          if ref != targets[i].modelRef {
            var t :| t in targets[..i] && t.modelRef == ref && AliasTargetScore(providerType, t) == before[ref];
            assert t in targets[..i + 1];
          }
        }
      }
    }
    assert targets[..|targets|] == targets;
  }

  /** The elements of the list are these, each once. */
  ghost predicate Lists(list: seq<string>, s: set<string>) {
    (forall x :: x in list <==> x in s) && forall i, j :: 0 <= i < j < |list| ==> list[i] != list[j]
  }

  lemma ListsOneMore(list: seq<string>, s: set<string>, x: string)
    requires Lists(list, s) && x !in s
    ensures Lists(list + [x], s + {x})
  {
  }

  lemma ListsOne(list: seq<string>, s: set<string>)
    requires Lists(list, s)
    ensures |list| == 1 ==> s == {list[0]}
    ensures |list| != 1 ==> forall x :: s != {x}
  {
    if |list| == 1 {
      assert list[0] in s;
    } else {
      forall x ensures s != {x} {
        if |list| > 1 {
          assert list[0] in s && list[1] in s;
        } else {
          assert x in {x} && x !in list;
        }
      }
    }
  }

  ghost function Maximal(scores: map<string, nat>, done: set<string>, best: nat): set<string> {
    set ref | ref in scores && ref in done && scores[ref] == best
  }

  method KeepBest(scores: map<string, nat>) returns (bestRefs: seq<string>, bestScore: nat)
    ensures Lists(bestRefs, Maximal(scores, scores.Keys, bestScore))
    ensures forall ref :: ref in scores ==> scores[ref] <= bestScore
    ensures bestScore == 0 || exists ref :: ref in scores && scores[ref] == bestScore
  {
    bestRefs, bestScore := [], 0;
    var left := scores.Keys;
    while left != {}
      invariant left <= scores.Keys
      invariant forall ref :: ref in scores && ref !in left ==> scores[ref] <= bestScore
      invariant bestScore == 0 || exists ref :: ref in scores && scores[ref] == bestScore
      invariant Lists(bestRefs, Maximal(scores, scores.Keys - left, bestScore))
      decreases |left|
    {
      var ref :| ref in left;
      ghost var before := Maximal(scores, scores.Keys - left, bestScore);
      left := left - {ref};
      if scores[ref] > bestScore {
        bestScore := scores[ref];
        bestRefs := [ref];
      } else if scores[ref] == bestScore {
        ListsOneMore(bestRefs, before, ref);
        assert Maximal(scores, scores.Keys - left, bestScore) == before + {ref};
        bestRefs := bestRefs + [ref];
      }
    }
    assert scores.Keys - left == scores.Keys;
  }

  lemma MaximalIsBest(scores: map<string, nat>, bestScore: nat, providerType: string, targets: seq<AliasTarget>)
    requires ScoresOf(scores, providerType, targets)
    requires forall ref :: ref in scores ==> scores[ref] <= bestScore
    requires bestScore == 0 || exists ref :: ref in scores && scores[ref] == bestScore
    ensures Maximal(scores, scores.Keys, bestScore) == BestRefs(providerType, AsSet(targets))
  {
    var all := AsSet(targets);
    forall ref | ref in Maximal(scores, scores.Keys, bestScore) ensures ref in BestRefs(providerType, all) {
      var t :| t in targets && t.modelRef == ref && AliasTargetScore(providerType, t) == scores[ref];
      assert t in all;
    }
    forall ref | ref in BestRefs(providerType, all) ensures ref in Maximal(scores, scores.Keys, bestScore) {
      var t :| t in all && t.modelRef == ref && AliasTargetScore(providerType, t) > 0
               && forall u :: u in all ==> AliasTargetScore(providerType, u) <= AliasTargetScore(providerType, t);
      assert t in targets;
      var top :| top in scores && scores[top] == bestScore;
      var u :| u in targets && u.modelRef == top && AliasTargetScore(providerType, u) == scores[top];
      assert u in all;
    }
  }

  function Unless(s: string, but: string): Option<string> {
    if s == but then None else Some(s)
  }

  class ModelList {
    const providers: set<string>
    /** The aliases of every model. */
    const models: map<string, seq<string>>
    /** Keyed by provider type and model ID, with a slash between. */
    const providerModels: map<string, ProviderModel>
    var providerModelByActualID: map<string, string>
    var aliasTargetsByID: AliasTargets

    constructor (providers: set<string>, models: map<string, seq<string>>, providerModels: map<string, ProviderModel>)
      ensures this.providers == providers && this.models == models && this.providerModels == providerModels
    {
      this.providers, this.models, this.providerModels := providers, models, providerModels;
      providerModelByActualID, aliasTargetsByID := map[], map[];
    }

    ghost predicate Declares(alias: string, t: AliasTarget) {
      t.modelRef in models && DeclaresIn(providers, t.modelRef, models[t.modelRef], alias, t)
    }

    /** The key under which a provider's own model ID leads to this entry. */
    function ReverseKey(key: string): Option<string>
      requires key in providerModels
    {
      var actual := ActualModelID(providerModels[key]);
      if actual.None? || Cut(key).None? then None
      else
        var reverse := Cut(key).value.0 + "/" + actual.value;
        if reverse != key then Some(reverse) else None
    }

    ghost predicate IsReverseIndex(index: map<string, string>) {
      && (forall reverse :: reverse in index ==>
          index[reverse] in providerModels && ReverseKey(index[reverse]) == Some(reverse))
      && (forall key :: key in providerModels && ReverseKey(key).Some? ==> ReverseKey(key).value in index)
    }

    /** The index holds exactly the declared targets, none twice. */
    ghost predicate Indexed()
      reads this
    {
      && (forall alias, t :: Holds(aliasTargetsByID, alias, t) <==> Declares(alias, t))
      && NoDuplicates(aliasTargetsByID)
    }

    method AddAliasTarget(alias: string, target: AliasTarget)
      requires NoDuplicates(aliasTargetsByID)
      modifies `aliasTargetsByID
      ensures NoDuplicates(aliasTargetsByID)
      ensures forall a, t :: Holds(aliasTargetsByID, a, t) <==>
                old(Holds(aliasTargetsByID, a, t)) || (alias != "" && a == alias && t == target)
    {
      if alias == "" {
        return;
      }
      var existing := if alias in aliasTargetsByID then aliasTargetsByID[alias] else [];
      for i := 0 to |existing|
        invariant target !in existing[..i]
      {
        if existing[i] == target {
          return;
        }
      }
      assert existing[..|existing|] == existing;
      aliasTargetsByID := aliasTargetsByID[alias := existing + [target]];
    }

    method SplitProviderQualifiedAlias(alias: string) returns (split: Option<(string, string)>)
      ensures forall p, id :: split == Some((p, id)) <==>
                p != "" && id != "" && p in providers && '/' !in p && alias == p + "/" + id
    {
      forall p, id ensures Cut(alias) == Some((p, id)) <==> '/' !in p && alias == p + "/" + id {
        CutIsAtFirstSlash(alias, p, id);
      }
      var cut := Cut(alias);
      if cut.None? || cut.value.0 == "" || cut.value.1 == "" {
        return None;
      }
      if cut.value.0 !in providers {
        return None;
      }
      return cut;
    }

    /** The targets of one alias of one model. */
    method AddAlias(ref: string, alias: string, ghost earlier: seq<string>, ghost before: AliasTargets)
      requires NoDuplicates(aliasTargetsByID)
      requires forall a, t :: Holds(aliasTargetsByID, a, t) <==>
               Holds(before, a, t) || DeclaresIn(providers, ref, earlier, a, t)
      modifies `aliasTargetsByID
      ensures NoDuplicates(aliasTargetsByID)
      ensures forall a, t :: Holds(aliasTargetsByID, a, t) <==>
                Holds(before, a, t) || DeclaresIn(providers, ref, earlier + [alias], a, t)
    {
      AddAliasTarget(alias, AliasTarget(ref, ""));
      var split := SplitProviderQualifiedAlias(alias);
      if split.Some? {
        AddAliasTarget(split.value.1, AliasTarget(ref, split.value.0));
      }
    }

    method IndexAliases()
      modifies `aliasTargetsByID
      ensures Indexed()
    {
      aliasTargetsByID := map[];
      var refs := models.Keys;
      while refs != {}
        invariant refs <= models.Keys && NoDuplicates(aliasTargetsByID)
        invariant forall a, t :: Holds(aliasTargetsByID, a, t) <==> t.modelRef !in refs && Declares(a, t)
        decreases |refs|
      {
        var ref :| ref in refs;
        ghost var before := aliasTargetsByID;
        for i := 0 to |models[ref]|
          invariant NoDuplicates(aliasTargetsByID)
          invariant forall a, t :: Holds(aliasTargetsByID, a, t) <==>
                      Holds(before, a, t) || DeclaresIn(providers, ref, models[ref][..i], a, t)
        {
          AddAlias(ref, models[ref][i], models[ref][..i], before);
          assert models[ref][..i + 1] == models[ref][..i] + [models[ref][i]];
        }
        assert models[ref][..|models[ref]|] == models[ref];
        refs := refs - {ref};
      }
    }

    /** buildReverseIndex. */
    method BuildReverseIndex()
      modifies this
      ensures Indexed() && IsReverseIndex(providerModelByActualID)
    {
      IndexAliases();
      providerModelByActualID := map[];
      var keys := providerModels.Keys;
      while keys != {}
        invariant keys <= providerModels.Keys && Indexed()
        invariant forall reverse :: reverse in providerModelByActualID ==>
                    providerModelByActualID[reverse] in providerModels
                    && ReverseKey(providerModelByActualID[reverse]) == Some(reverse)
        invariant forall key :: key in providerModels && key !in keys && ReverseKey(key).Some? ==>
                    ReverseKey(key).value in providerModelByActualID
        decreases |keys|
      {
        var key :| key in keys;
        keys := keys - {key};
        var actual := ActualModelID(providerModels[key]);
        if actual.None? {
          continue;
        }
        var cut := Cut(key);
        if cut.None? {
          continue;
        }
        var reverse := cut.value.0 + "/" + actual.value;
        if reverse != key {
          providerModelByActualID := providerModelByActualID[reverse := key];
        }
      }
    }

    /** Two entries that claim one key leave two indexes. */
    lemma TwoClaims(index: map<string, string>, a: string, b: string) returns (other: map<string, string>)
      requires IsReverseIndex(index) && a in providerModels && b in providerModels && a != b
      requires ReverseKey(a).Some? && ReverseKey(a) == ReverseKey(b)
      ensures IsReverseIndex(other) && other != index
    {
      var reverse := ReverseKey(a).value;
      other := index[reverse := if index[reverse] == a then b else a];
      assert other[reverse] != index[reverse];
    }

    ghost predicate ClaimsAreDistinct() {
      forall a, b ::
        a in providerModels && b in providerModels && ReverseKey(a).Some? && ReverseKey(a) == ReverseKey(b) ==> a == b
    }

    lemma DistinctClaims(index: map<string, string>, other: map<string, string>)
      requires IsReverseIndex(index) && IsReverseIndex(other) && ClaimsAreDistinct()
      ensures other == index
    {
      assert forall reverse :: reverse in other ==> reverse in index && other[reverse] == index[reverse];
      assert forall reverse :: reverse in index ==> reverse in other;
    }

    /** The reverse index is determined by the list exactly if no two entries claim the same key; otherwise the order
        of iteration decides. */
    lemma ReverseIndexIsForcedIff(index: map<string, string>)
      requires IsReverseIndex(index)
      ensures (forall other :: IsReverseIndex(other) ==> other == index) <==> ClaimsAreDistinct()
    {
      if ClaimsAreDistinct() {
        forall other | IsReverseIndex(other) ensures other == index {
          DistinctClaims(index, other);
        }
      } else {
        var a, b :|
          a in providerModels && b in providerModels && ReverseKey(a).Some? && ReverseKey(a) == ReverseKey(b) && a != b;
        var other := TwoClaims(index, a, b);
      }
    }

    /** Two models of a provider with the same ID upstream: both indexes below can come of the same list. */
    lemma TwoReverseIndexes()
      requires providerModels == map["p/a" := ProviderModel(Some("x"), None), "p/b" := ProviderModel(Some("x"), None)]
      ensures IsReverseIndex(map["p/x" := "p/a"]) && IsReverseIndex(map["p/x" := "p/b"])
    {
      TrimmedX();
      assert "p" + "/" + "a" == "p/a" && "p" + "/" + "b" == "p/b" && "p" + "/" + "x" == "p/x";
      CutIsAtFirstSlash("p/a", "p", "a");
      CutIsAtFirstSlash("p/b", "p", "b");
      assert ReverseKey("p/a") == Some("p/x") && ReverseKey("p/b") == Some("p/x");
    }

    /** selectAliasModelRef: the winning model, whatever the order of the targets and of the maps. */
    method SelectAliasModelRef(providerType: string, targets: seq<AliasTarget>) returns (selected: Option<string>)
      ensures forall ref :: selected == Some(ref) <==> Wins(providerType, AsSet(targets), providerModels.Keys, ref)
    {
      ghost var all := AsSet(targets);
      var scores := ScoreTargets(providerType, targets);
      var bestRefs, bestScore := KeepBest(scores);
      ghost var best := BestRefs(providerType, all);
      MaximalIsBest(scores, bestScore, providerType, targets);
      ListsOne(bestRefs, best);
      if |bestRefs| == 1 {
        SingleBestWins(providerType, all, bestRefs[0]);
        return Some(bestRefs[0]);
      }
      if providerType != "" {
        var withProviderOverride: seq<string> := [];
        for i := 0 to |bestRefs|
          invariant Lists(withProviderOverride, OverriddenRefs(providerType, AsSet(bestRefs[..i]), providerModels.Keys))
        {
          assert bestRefs[..i + 1] == bestRefs[..i] + [bestRefs[i]];
          ghost var before := OverriddenRefs(providerType, AsSet(bestRefs[..i]), providerModels.Keys);
          assert bestRefs[i] !in bestRefs[..i];
          OverriddenOneMore(providerType, bestRefs[..i], bestRefs[i], providerModels.Keys);
          if providerType + "/" + bestRefs[i] in providerModels {
            ListsOneMore(withProviderOverride, before, bestRefs[i]);
            withProviderOverride := withProviderOverride + [bestRefs[i]];
          }
        }
        assert AsSet(bestRefs[..|bestRefs|]) == best;
        ListsOne(withProviderOverride, OverriddenRefs(providerType, best, providerModels.Keys));
        if |withProviderOverride| == 1 {
          return Some(withProviderOverride[0]);
        }
      }
      return None;
    }

    lemma SingleBestWins(providerType: string, targets: set<AliasTarget>, only: string)
      requires BestRefs(providerType, targets) == {only}
      ensures forall ref :: ref == only <==> Wins(providerType, targets, providerModels.Keys, ref)
    {
      forall ref | Wins(providerType, targets, providerModels.Keys, ref) ensures ref == only {
        WinnerIsUnique(providerType, targets, providerModels.Keys, ref, only);
      }
    }

    /** The key of a reverse entry is the provider's part of the model's key and the ID that the provider uses for it,
        the first of its two that is not blank, unless that is the key itself. */
    lemma ReverseKeyIs(key: string, provider: string, model: string)
      requires key in providerModels && '/' !in provider && key == provider + "/" + model
      ensures var ProviderModel(own, custom) := providerModels[key];
        && (own.Some? && Strings.Trim(own.value) != "" ==>
              ReverseKey(key) == Unless(provider + "/" + Strings.Trim(own.value), key))
        && (!(own.Some? && Strings.Trim(own.value) != "") && custom.Some? && Strings.Trim(custom.value) != "" ==>
              ReverseKey(key) == Unless(provider + "/" + Strings.Trim(custom.value), key))
        && (!(own.Some? && Strings.Trim(own.value) != "") && !(custom.Some? && Strings.Trim(custom.value) != "") ==>
              ReverseKey(key) == None)
    {
      CutIsAtFirstSlash(key, provider, model);
    }

    /** These are all the targets that the list declares for the alias. */
    ghost predicate AreDeclared(targets: set<AliasTarget>, alias: string) {
      forall t :: t in targets <==> Declares(alias, t)
    }

    /** resolveAlias, as far as the model it selects: it depends on nothing but the targets that the list declares for
        the alias. */
    method ResolveAliasRef(providerType: string, modelID: string) returns (ref: Option<string>)
      requires Indexed()
      ensures exists targets :: AreDeclared(targets, modelID) &&
                forall r :: ref == Some(r) <==> Wins(providerType, targets, providerModels.Keys, r)
    {
      var found := if modelID in aliasTargetsByID then aliasTargetsByID[modelID] else [];
      ghost var targets := AsSet(found);
      forall t ensures t in targets <==> Declares(modelID, t) {
        assert Holds(aliasTargetsByID, modelID, t) <==> Declares(modelID, t);
      }
      assert AreDeclared(targets, modelID);
      if |found| == 0 {
        assert BestRefs(providerType, targets) == {};
        forall r ensures !Wins(providerType, targets, providerModels.Keys, r) {
          assert r in {r};
        }
        return None;
      }
      ref := SelectAliasModelRef(providerType, found);
    }
  }
}
