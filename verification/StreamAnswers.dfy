/** Exactly when the stream agrees with the non-streaming translation (internal/anthropicapi/response.go) of the same
    response, told by the fields of the chunks, and inputs on which it does not. */
module StreamAnswers {
  import opened Wrappers
  import opened StreamConverter
  import opened StreamReading
  import opened StreamAgreement
  import opened StreamChoices
  import opened StreamResponses

  // ---------------------------------------------------------------- the response

  function OwnOf(choices: seq<Choice>, own: Own, k: nat): seq<Choice> {
    if choices == [] then [] else
      var j := |choices| - 1;
      OwnOf(choices[..j], own, k) + if own(k, j) then [choices[j]] else []
  }

  /** The choices of the chunks that belong to the response's first choice. */
  function OwnChoices(chunks: seq<Chunk>, own: Own): seq<Choice> {
    if chunks == [] then [] else
      var k := |chunks| - 1;
      OwnChoices(chunks[..k], own) + OwnOf(chunks[k].choices, own, k)
  }

  /** All the tool calls among the fragments, each once. */
  ghost predicate ListsIndices(order: seq<int>, fragments: seq<ToolFragment>) {
    && (forall k :: Mentions(k, fragments) <==> k in order)
    && (forall p, q :: 0 <= p < q < |order| ==> order[p] != order[q])
  }

  /** The response knows each call's id and name, whichever fragment brought them, and all its arguments. */
  function KnownCalls(order: seq<int>, fragments: seq<ToolFragment>): seq<ToolCall> {
    seq(|order|, p requires 0 <= p < |order| =>
      ToolCall(Known(order[p], fragments).0, Known(order[p], fragments).1, ArgumentsOf(order[p], fragments)))
  }

  /** What the provider would have answered without streaming, as far as its first choice. Its tool calls come in an
      order of their own; as a rule that of their indices. */
  ghost predicate IsResponseOf(resp: ChatResponse, chunks: seq<Chunk>, own: Own, order: seq<int>) {
    var mine := OwnChoices(chunks, own);
    && ListsIndices(order, FragmentsOf(mine))
    && resp.choices != []
    && resp.choices[0] == ChatChoice(Message(ReasoningOf(mine), TextOf(mine), KnownCalls(order, FragmentsOf(mine))),
                                     FinishOf(mine))
  }

  // ---------------------------------------------------------------- when the calls are told alike

  /** The fragments that begin the tool calls carry these ids and names, in turn. */
  ghost predicate BeginWith(fragments: seq<ToolFragment>, names: seq<(string, string)>) {
    var begun := Indices(fragments);
    |begun| == |names| && forall p :: 0 <= p < |begun| ==> Begins(begun[p], fragments) == names[p]
  }

  /** The calls begin in this order, or where they do not, the first choice gives both the same arguments. */
  ghost predicate TakeTurns(fragments: seq<ToolFragment>, mine: seq<ToolFragment>, order: seq<int>) {
    var begun := Indices(fragments);
    && |begun| == |order|
    && forall p :: 0 <= p < |begun| ==>
       begun[p] == order[p] || ArgumentsOf(begun[p], mine) == ArgumentsOf(order[p], mine)
  }

  function KnownNames(order: seq<int>, fragments: seq<ToolFragment>): seq<(string, string)> {
    seq(|order|, p requires 0 <= p < |order| => Known(order[p], fragments))
  }

  function BegunNames(order: seq<int>, fragments: seq<ToolFragment>): seq<(string, string)> {
    seq(|order|, p requires 0 <= p < |order| => Begins(order[p], fragments))
  }

  // ---------------------------------------------------------------- the same of the pieces

  lemma {:induction false} OwnItemsIn(choices: seq<Choice>, own: Own, k: nat)
    ensures OwnChoiceItems(choices, own, k) == ChoiceItems(OwnOf(choices, own, k))
  {
    if choices != [] {
      var j := |choices| - 1;
      OwnItemsIn(choices[..j], own, k);
      if own(k, j) {
        ItemsOneMore(OwnOf(choices[..j], own, k), choices[j]);
      } else {
        assert OwnOf(choices[..j], own, k) + [] == OwnOf(choices[..j], own, k);
      }
    }
  }

  lemma {:induction false} OwnItemsOfChoices(chunks: seq<Chunk>, own: Own)
    ensures OwnItems(chunks, own) == ChoiceItems(OwnChoices(chunks, own))
  {
    if chunks != [] {
      var k := |chunks| - 1;
      OwnItemsOfChoices(chunks[..k], own);
      OwnItemsIn(chunks[k].choices, own, k);
      ItemsConcat(OwnChoices(chunks[..k], own), OwnOf(chunks[k].choices, own, k));
    }
  }

  lemma KnownWith(k: int, fragments: seq<ToolFragment>, f: ToolFragment)
    ensures Known(k, fragments + [f]) ==
            if f.index != k then Known(k, fragments)
            else (if f.id != "" then f.id else Known(k, fragments).0, if f.name != "" then f.name
              else Known(k, fragments).1)
  {
    assert (fragments + [f])[..|fragments|] == fragments;
  }

  lemma {:induction false} IdentityIsKnown(k: int, items: seq<Item>)
    ensures Identity(k, items) == Known(k, ToolsIn(items))
  {
    if items != [] {
      var before, last := items[..|items| - 1], items[|items| - 1];
      IdentityIsKnown(k, before);
      ToolsOfLast(items);
      if last.Tool? {
        KnownWith(k, ToolsIn(before), last.fragment);
      }
    }
  }

  lemma CallFields(choices: seq<Choice>, k: int)
    ensures var items, fragments := ChoiceItems(choices), FragmentsOf(choices);
      && (Seen(k, items) <==> Mentions(k, fragments))
      && Opening(k, items) == Begins(k, fragments)
      && Identity(k, items) == Known(k, fragments)
      && Arguments(k, items) == ArgumentsOf(k, fragments)
  {
    ToolsOfChoices(choices);
    SeenIsMentioned(k, ChoiceItems(choices));
    StreamedIsBegun(k, ChoiceItems(choices));
    IdentityIsKnown(k, ChoiceItems(choices));
  }

  lemma ListsAlike(choices: seq<Choice>, order: seq<int>)
    ensures ListsCalls(order, ChoiceItems(choices)) <==> ListsIndices(order, FragmentsOf(choices))
  {
    forall k ensures Seen(k, ChoiceItems(choices)) <==> Mentions(k, FragmentsOf(choices)) {
      CallFields(choices, k);
    }
  }

  lemma CallsAlike(choices: seq<Choice>, order: seq<int>)
    ensures AnsweredCalls(order, ChoiceItems(choices)) == KnownCalls(order, FragmentsOf(choices))
    ensures Identities(order, ChoiceItems(choices)) == KnownNames(order, FragmentsOf(choices))
    ensures Openings(order, ChoiceItems(choices)) == BegunNames(order, FragmentsOf(choices))
  {
    forall p | 0 <= p < |order|
      ensures Identity(order[p], ChoiceItems(choices)) == Known(order[p], FragmentsOf(choices))
      ensures Opening(order[p], ChoiceItems(choices)) == Begins(order[p], FragmentsOf(choices))
      ensures Arguments(order[p], ChoiceItems(choices)) == ArgumentsOf(order[p], FragmentsOf(choices))
    {
      CallFields(choices, order[p]);
    }
  }

  lemma OrderAlike(choices: seq<Choice>)
    ensures CallOrder(ChoiceItems(choices)) == Indices(FragmentsOf(choices))
  {
    ToolsOfChoices(choices);
    OrderIsIndices(ChoiceItems(choices));
  }

  lemma BeginAlike(choices: seq<Choice>, names: seq<(string, string)>)
    ensures BeginAs(ChoiceItems(choices), names) <==> BeginWith(FragmentsOf(choices), names)
  {
    OrderAlike(choices);
    forall k ensures Opening(k, ChoiceItems(choices)) == Begins(k, FragmentsOf(choices)) {
      CallFields(choices, k);
    }
  }

  lemma TurnsAlike(choices: seq<Choice>, mine: seq<Choice>, order: seq<int>)
    ensures ArgumentsInTurn(ChoiceItems(choices), ChoiceItems(mine), order) <==>
            TakeTurns(FragmentsOf(choices), FragmentsOf(mine), order)
  {
    OrderAlike(choices);
    forall k ensures Arguments(k, ChoiceItems(mine)) == ArgumentsOf(k, FragmentsOf(mine)) {
      CallFields(mine, k);
    }
  }

  lemma ResponseOfPieces(resp: ChatResponse, chunks: seq<Chunk>, own: Own, order: seq<int>)
    requires IsResponseOf(resp, chunks, own, order)
    ensures GatheredFrom(resp, chunks, own, order)
  {
    var mine := OwnChoices(chunks, own);
    OwnItemsOfChoices(chunks, own);
    TextOfChoices(mine);
    FinishOfChoices(mine);
    ListsAlike(mine, order);
    CallsAlike(mine, order);
  }

  // ---------------------------------------------------------------- agreement

  /** Streaming agrees with the non-streaming translation of the same response, which looks at its first choice only.
      The blocks agree exactly when the choices come in phase (however they are cut, and even with the fragments of
      several tool calls interleaved), the other choices are mute, the fragments that begin the tool calls already carry
      the ids and names of the response's calls, in turn, and a call that begins out of its turn has the arguments of
      the one whose turn it is. The stop reasons agree exactly when the last finish reason of the stream is told like
      the response's. */
  lemma StreamingAgreesIff(model: string, chunks: seq<Chunk>, own: Own, order: seq<int>, resp: ChatResponse)
    requires IsResponseOf(resp, chunks, own, order)
    ensures var all, mine := AllChoices(chunks), FragmentsOf(OwnChoices(chunks, own));
            var ChatChoice(m, finish) := resp.choices[0];
            var reading := ReadAll(Finalized(Fed(model, chunks), model).out);
      && reading.Complete?
      && (reading.blocks == ContentOf(m) <==>
            InPhase(all) && OthersAreMute(chunks, own) && BeginWith(FragmentsOf(all), KnownNames(order, mine))
            && TakeTurns(FragmentsOf(all), mine, order))
      && (reading.stopReason == StopOf(StopReasonFromFinish(finish, m.toolCalls != [])) <==>
            StopsAlike(FinishOf(all), FinishFollowsTool(all), finish, m.toolCalls != []))
  {
    var all, mine := AllChoices(chunks), OwnChoices(chunks, own);
    ResponseOfPieces(resp, chunks, own, order);
    PiecesAgreeIff(model, chunks, own, order, resp);
    AllItemsOfChoices(chunks);
    OwnItemsOfChoices(chunks, own);
    PhasedChoices(all);
    FinishOfChoices(all);
    CallsAlike(mine, order);
    BeginAlike(all, KnownNames(order, FragmentsOf(mine)));
    TurnsAlike(all, mine, order);
  }

  /** The message that the stream of these choices tells. */
  function ToldBy(choices: seq<Choice>): Message {
    var fragments := FragmentsOf(choices);
    Message(ReasoningOf(choices), TextOf(choices),
            seq(|Indices(fragments)|, p requires 0 <= p < |Indices(fragments)| =>
              BegunCall(Indices(fragments)[p], fragments)))
  }

  lemma StreamedIsTold(choices: seq<Choice>)
    ensures Streamed(ChoiceItems(choices)) == ToldBy(choices)
  {
    var items, fragments := ChoiceItems(choices), FragmentsOf(choices);
    TextOfChoices(choices);
    OrderAlike(choices);
    ToolsOfChoices(choices);
    forall p | 0 <= p < |Indices(fragments)|
      ensures StreamedCall(CallOrder(items)[p], items) == BegunCall(Indices(fragments)[p], fragments)
    {
      StreamedIsBegun(CallOrder(items)[p], items);
    }
  }

  lemma ToldIsGathered(choices: seq<Choice>)
    ensures var items, order, m := ChoiceItems(choices), Indices(FragmentsOf(choices)), ToldBy(choices);
      && ListsCalls(order, items) && |m.toolCalls| == |order|
      && m.reasoning == Reasonings(items) && m.text == Contents(items)
      && (forall p :: 0 <= p < |order| ==> m.toolCalls[p].arguments == Arguments(order[p], items))
      && NamesOf(m.toolCalls) == BegunNames(order, FragmentsOf(choices))
  {
    var order := Indices(FragmentsOf(choices));
    TextOfChoices(choices);
    OrderAlike(choices);
    OrderIsSeen(ChoiceItems(choices));
    forall p | 0 <= p < |order|
      ensures Arguments(order[p], ChoiceItems(choices)) == ArgumentsOf(order[p], FragmentsOf(choices)) {
      CallFields(choices, order[p]);
    }
  }

  /** Other choices leave what the stream tells alone exactly if they carry no reasoning, no text and no arguments, and
      the fragments that begin calls carry the ids and names they would without them, in turn, each call with the same
      arguments. */
  lemma OthersAddNothingIff(chunks: seq<Chunk>, own: Own)
    ensures var all, mine := FragmentsOf(AllChoices(chunks)), FragmentsOf(OwnChoices(chunks, own));
            ToldBy(AllChoices(chunks)) == ToldBy(OwnChoices(chunks, own)) <==>
              OthersAreMute(chunks, own) && BeginWith(all, BegunNames(Indices(mine), mine))
              && TakeTurns(all, mine, Indices(mine))
  {
    var all, mine := AllChoices(chunks), OwnChoices(chunks, own);
    var order := Indices(FragmentsOf(mine));
    AllItemsOfChoices(chunks);
    OwnItemsOfChoices(chunks, own);
    StreamedIsTold(all);
    ToldIsGathered(mine);
    MessageToldIff(chunks, own, order, ToldBy(mine));
    BeginAlike(all, BegunNames(order, FragmentsOf(mine)));
    TurnsAlike(all, mine, order);
  }

  // ---------------------------------------------------------------- one choice

  lemma {:induction false} OwnAreAllIn(choices: seq<Choice>, own: Own, k: nat)
    requires forall j: nat :: j < |choices| ==> own(k, j)
    ensures OwnOf(choices, own, k) == choices
  {
    if choices != [] {
      OwnAreAllIn(choices[..|choices| - 1], own, k);
    }
  }

  lemma {:induction false} OwnAreAll(chunks: seq<Chunk>, own: Own)
    requires forall k: nat, j: nat :: k < |chunks| && j < |chunks[k].choices| ==> own(k, j)
    ensures OwnChoices(chunks, own) == AllChoices(chunks)
  {
    if chunks != [] {
      var k := |chunks| - 1;
      OwnAreAll(chunks[..k], own);
      OwnAreAllIn(chunks[k].choices, own, k);
    }
  }

  /** Every call has its id and name from its first fragment on. */
  ghost predicate MetadataComesFirst(fragments: seq<ToolFragment>) {
    forall k :: Mentions(k, fragments) ==> Begins(k, fragments) == Known(k, fragments)
  }

  ghost predicate DistinctIds(calls: seq<ToolCall>) {
    forall p, q :: 0 <= p < q < |calls| ==> calls[p].id != calls[q].id
  }

  /** The indices are the calls mentioned, each once. */
  lemma {:induction false} IndicesAreMentioned(fragments: seq<ToolFragment>)
    ensures ListsIndices(Indices(fragments), fragments)
  {
    if fragments != [] {
      var before, f := fragments[..|fragments| - 1], fragments[|fragments| - 1];
      IndicesAreMentioned(before);
      assert before + [f] == fragments;
      forall k ensures Mentions(k, fragments) <==> k in Indices(fragments) {
        MentionsOneMore(k, before, f);
      }
    }
  }

  lemma BeginInOrderIff(fragments: seq<ToolFragment>)
    ensures BeginWith(fragments, KnownNames(Indices(fragments), fragments)) <==> MetadataComesFirst(fragments)
  {
    IndicesAreMentioned(fragments);
    var begun := Indices(fragments);
    if BeginWith(fragments, KnownNames(begun, fragments)) {
      forall k | Mentions(k, fragments) ensures Begins(k, fragments) == Known(k, fragments) {
        var p :| 0 <= p < |begun| && begun[p] == k;
        assert KnownNames(begun, fragments)[p] == Known(k, fragments);
      }
    }
  }

  lemma BeginsInPlace(fragments: seq<ToolFragment>, order: seq<int>, p: nat)
    requires ListsIndices(order, fragments) && MetadataComesFirst(fragments) && p < |order| == |Indices(fragments)|
    requires DistinctIds(KnownCalls(order, fragments))
    requires Begins(Indices(fragments)[p], fragments) == KnownNames(order, fragments)[p]
    ensures order[p] == Indices(fragments)[p]
  {
    var k := Indices(fragments)[p];
    IndicesAreMentioned(fragments);
    assert k in Indices(fragments) && Mentions(k, fragments) && k in order;
    var q :| 0 <= q < |order| && order[q] == k;
    SameIdSamePlace(KnownCalls(order, fragments), p, q);
  }

  lemma SameIdSamePlace(calls: seq<ToolCall>, p: nat, q: nat)
    requires DistinctIds(calls) && p < |calls| && q < |calls| && calls[p].id == calls[q].id
    ensures p == q
  {
  }

  lemma BeginOnlyInOrder(fragments: seq<ToolFragment>, order: seq<int>)
    requires ListsIndices(order, fragments) && MetadataComesFirst(fragments)
    requires DistinctIds(KnownCalls(order, fragments)) && BeginWith(fragments, KnownNames(order, fragments))
    ensures order == Indices(fragments)
  {
    forall p | 0 <= p < |order| ensures order[p] == Indices(fragments)[p] {
      BeginsInPlace(fragments, order, p);
    }
  }

  lemma {:induction false} FinishNeedsTool(choices: seq<Choice>)
    ensures FinishFollowsTool(choices) ==> FragmentsOf(choices) != []
  {
    if choices != [] {
      FinishNeedsTool(choices[..|choices| - 1]);
    }
  }

  lemma NoCallsIff(order: seq<int>, fragments: seq<ToolFragment>)
    requires ListsIndices(order, fragments)
    ensures order == [] <==> fragments == []
  {
    if fragments != [] {
      assert fragments[0].index == fragments[0].index && Mentions(fragments[0].index, fragments);
    }
    if order != [] {
      assert order[0] in order && Mentions(order[0], fragments);
    }
  }

  /** For a response with a single choice: if it has its calls in the order they began, the blocks agree exactly when
      the choices come in phase and every call has its id and name from its first fragment on; and if they have, and the
      ids differ, exactly when the choices come in phase and the calls began in the response's order. The stop reasons
      agree exactly when there are no tool calls, or the last finish reason does not precede them all, or it means tool
      use by itself. */
  lemma SingleChoiceAgreesIff(model: string, chunks: seq<Chunk>, own: Own, order: seq<int>, resp: ChatResponse)
    requires IsResponseOf(resp, chunks, own, order)
    requires forall k: nat, j: nat :: k < |chunks| && j < |chunks[k].choices| ==> own(k, j)
    ensures var all := AllChoices(chunks);
            var fragments := FragmentsOf(all);
            var ChatChoice(m, finish) := resp.choices[0];
            var reading := ReadAll(Finalized(Fed(model, chunks), model).out);
      && reading.Complete?
      && (order == Indices(fragments) ==>
            (reading.blocks == ContentOf(m) <==> InPhase(all) && MetadataComesFirst(fragments)))
      && (MetadataComesFirst(fragments) && DistinctIds(m.toolCalls) ==>
            (reading.blocks == ContentOf(m) <==> InPhase(all) && order == Indices(fragments)))
      && (reading.stopReason == StopOf(StopReasonFromFinish(finish, m.toolCalls != [])) <==>
            (m.toolCalls == [] || FinishFollowsTool(all) || MeansToolUse(finish)))
  {
    var all := AllChoices(chunks);
    var fragments := FragmentsOf(all);
    OwnAreAll(chunks, own);
    StreamingAgreesIff(model, chunks, own, order, resp);
    assert OthersAreMute(chunks, own);
    BeginInOrderIff(fragments);
    if MetadataComesFirst(fragments) && DistinctIds(resp.choices[0].message.toolCalls)
      && BeginWith(fragments, KnownNames(order, fragments)) {
      BeginOnlyInOrder(fragments, order);
    }
    NoCallsIff(order, fragments);
    FinishNeedsTool(all);
  }

  // ---------------------------------------------------------------- inputs on which they differ

  function Said(reasoning: string, content: string, finish: string): Choice {
    Choice(reasoning, content, [], finish)
  }

  function Called(fragments: seq<ToolFragment>, finish: string): Choice {
    Choice("", "", fragments, finish)
  }

  function Told(choices: seq<Choice>): Chunk {
    Chunk("id", "model", choices, None)
  }

  lemma TwoChunks(a: Choice, b: Choice)
    ensures AllChoices([Told([a]), Told([b])]) == [a, b]
  {
    var chunks := [Told([a]), Told([b])];
    assert chunks[..1] == [Told([a])] && chunks[..1][..0] == [];
    assert AllChoices(chunks[..1]) == [] + [a];
  }

  lemma OneChunk(a: Choice)
    ensures AllChoices([Told([a])]) == [a]
  {
    assert [Told([a])][..0] == [];
  }

  lemma FragmentsOfOne(a: Choice)
    ensures FragmentsOf([a]) == a.toolCalls
  {
    assert [a][..0] == [];
    assert [] + a.toolCalls == a.toolCalls;
  }

  lemma FragmentsOfTwo(a: Choice, b: Choice)
    ensures FragmentsOf([a, b]) == a.toolCalls + b.toolCalls
  {
    assert [a, b][..1] == [a];
    FragmentsOfOne(a);
  }

  const TEXT_FIRST := [Told([Said("", "a", "")]), Told([Said("r", "", "")])]

  /** Reasoning after text: the stream has its blocks in that order, the non-streaming translation never has. */
  lemma LateReasoningDiffers(model: string, own: Own, order: seq<int>, resp: ChatResponse)
    requires IsResponseOf(resp, TEXT_FIRST, own, order)
    ensures ReadAll(Finalized(Fed(model, TEXT_FIRST), model).out).Complete?
    ensures ReadAll(Finalized(Fed(model, TEXT_FIRST), model).out).blocks != ContentOf(resp.choices[0].message)
  {
    TwoChunks(Said("", "a", ""), Said("r", "", ""));
    assert AllChoices(TEXT_FIRST)[1].reasoning != "" && AllChoices(TEXT_FIRST)[0].content != "";
    StreamingAgreesIff(model, TEXT_FIRST, own, order, resp);
  }

  const TWO_CHOICES := [Told([Said("", "a", ""), Said("", "b", "")])]

  /** Two choices: the stream runs their texts together, the non-streaming translation takes the first. */
  lemma SecondChoiceDiffers(model: string, own: Own, order: seq<int>, resp: ChatResponse)
    requires IsResponseOf(resp, TWO_CHOICES, own, order) && own(0, 0) && !own(0, 1)
    ensures ReadAll(Finalized(Fed(model, TWO_CHOICES), model).out).Complete?
    ensures ReadAll(Finalized(Fed(model, TWO_CHOICES), model).out).blocks != ContentOf(resp.choices[0].message)
  {
    assert !IsMute(TWO_CHOICES[0].choices[1]);
    StreamingAgreesIff(model, TWO_CHOICES, own, order, resp);
  }

  /** Calls that begin with other ids or names, or in another order, make other blocks. */
  lemma ReadsOtherwise(model: string, chunks: seq<Chunk>, own: Own, order: seq<int>, resp: ChatResponse)
    requires IsResponseOf(resp, chunks, own, order)
    requires !BeginWith(FragmentsOf(AllChoices(chunks)), KnownNames(order, FragmentsOf(OwnChoices(chunks, own))))
    ensures var reading := ReadAll(Finalized(Fed(model, chunks), model).out);
            reading.Complete? && reading.blocks != ContentOf(resp.choices[0].message)
  {
    StreamingAgreesIff(model, chunks, own, order, resp);
  }

  const LATE_METADATA :=
    [Told([Called([ToolFragment(0, "", "", "{}")], "")]),
     Told([Called([ToolFragment(0, "call_123", "lookup", "")], "tool_calls")])]

  lemma LateFragments(first: ToolFragment, second: ToolFragment)
    requires first.index == second.index == 0 && second.id != "" && second.name != ""
    ensures var fragments := [first, second];
            Begins(0, fragments) == (first.id, first.name) && Known(0, fragments) == (second.id, second.name)
            && Indices(fragments) == [0]
  {
    var fragments := [first, second];
    assert fragments[..1] == [first] && fragments[..1][..0] == [];
    assert fragments[..1][0].index == 0;
    assert Mentions(0, fragments[..1]);
    assert !Mentions(0, fragments[..1][..0]);
    assert Indices(fragments[..1]) == [] + [0];
  }

  lemma OnlyOneOrder(fragments: seq<ToolFragment>, order: seq<int>)
    requires ListsIndices(order, fragments) && Indices(fragments) == [0] && |order| == 1
    ensures order == [0]
  {
    IndicesAreMentioned(fragments);
    assert order[0] in order && order[0] in Indices(fragments);
  }

  /** Arguments before the id and name of their call: the stream's block has neither, the response's has both. */
  lemma LateMetadataDiffers(model: string, own: Own, order: seq<int>, resp: ChatResponse)
    requires IsResponseOf(resp, LATE_METADATA, own, order) && own(0, 0) && own(1, 0)
    ensures ReadAll(Finalized(Fed(model, LATE_METADATA), model).out).Complete?
    ensures ReadAll(Finalized(Fed(model, LATE_METADATA), model).out).blocks != ContentOf(resp.choices[0].message)
  {
    var a, b := LATE_METADATA[0].choices[0], LATE_METADATA[1].choices[0];
    var fragments := [a.toolCalls[0], b.toolCalls[0]];
    TwoChunks(a, b);
    FragmentsOfTwo(a, b);
    assert FragmentsOf(AllChoices(LATE_METADATA)) == fragments;
    LateFragments(a.toolCalls[0], b.toolCalls[0]);
    OwnAreAll(LATE_METADATA, own);
    if |order| == 1 {
      OnlyOneOrder(fragments, order);
      assert KnownNames(order, fragments)[0] == Known(0, fragments);
    }
    ReadsOtherwise(model, LATE_METADATA, own, order, resp);
  }

  const OUT_OF_TURN := [Told([Called([ToolFragment(1, "u", "g", "{}"), ToolFragment(0, "t", "f", "{}")], "")])]

  lemma OutOfTurnFragments(first: ToolFragment, second: ToolFragment)
    requires first.index == 1 && second.index == 0
    ensures var fragments := [first, second];
            Indices(fragments) == [1, 0] && Begins(1, fragments) == (first.id, first.name)
            && (second.id != "" && second.name != "" ==> Known(0, fragments) == (second.id, second.name))
  {
    var fragments := [first, second];
    assert fragments[..1] == [first] && fragments[..1][..0] == [];
    assert !Mentions(0, fragments[..1]) && !Mentions(1, fragments[..1][..0]);
    assert Indices(fragments[..1]) == [] + [1];
  }

  lemma OutOfTurnBegins(fragments: seq<ToolFragment>)
    requires Indices(fragments) == [1, 0] && Begins(1, fragments) != Known(0, fragments)
    ensures !BeginWith(fragments, KnownNames([0, 1], fragments))
  {
    assert KnownNames([0, 1], fragments)[0] == Known(0, fragments);
    assert Indices(fragments)[0] == 1;
  }

  lemma OutOfTurnNames()
    ensures var fragments := FragmentsOf(AllChoices(OUT_OF_TURN));
            !BeginWith(fragments, KnownNames([0, 1], fragments))
  {
    var a := OUT_OF_TURN[0].choices[0];
    OneChunk(a);
    FragmentsOfOne(a);
    OutOfTurnFragments(a.toolCalls[0], a.toolCalls[1]);
    assert a.toolCalls == [a.toolCalls[0], a.toolCalls[1]];
    OutOfTurnBegins(a.toolCalls);
  }

  /** The second call first: the stream has the calls as they began, a response by index has them the other way. */
  lemma OutOfTurnDiffers(model: string, own: Own, resp: ChatResponse)
    requires IsResponseOf(resp, OUT_OF_TURN, own, [0, 1]) && own(0, 0)
    ensures ReadAll(Finalized(Fed(model, OUT_OF_TURN), model).out).Complete?
    ensures ReadAll(Finalized(Fed(model, OUT_OF_TURN), model).out).blocks != ContentOf(resp.choices[0].message)
  {
    OutOfTurnNames();
    OwnAreAll(OUT_OF_TURN, own);
    ReadsOtherwise(model, OUT_OF_TURN, own, [0, 1], resp);
  }

  const STOPPED_EARLY := [Told([Said("", "", "stop")]), Told([Called([ToolFragment(0, "t", "f", "{}")], "")])]

  /** A finish reason that precedes the tool call: the stream says the turn ended, the other that a tool is wanted. */
  lemma EarlyFinishDiffers(model: string, own: Own, order: seq<int>, resp: ChatResponse)
    requires IsResponseOf(resp, STOPPED_EARLY, own, order) && own(0, 0) && own(1, 0)
    ensures var reading := ReadAll(Finalized(Fed(model, STOPPED_EARLY), model).out);
            var ChatChoice(m, finish) := resp.choices[0];
            reading.Complete? && reading.stopReason != StopOf(StopReasonFromFinish(finish, m.toolCalls != []))
  {
    var a, b := STOPPED_EARLY[0].choices[0], STOPPED_EARLY[1].choices[0];
    TwoChunks(a, b);
    EarlyFinish(a, b);
    OwnAreAll(STOPPED_EARLY, own);
    NoCallsIff(order, FragmentsOf([a, b]));
    SingleChoiceAgreesIff(model, STOPPED_EARLY, own, order, resp);
  }

  lemma EarlyFinish(a: Choice, b: Choice)
    requires a.finish == "stop" && a.toolCalls == [] && b.finish == "" && b.toolCalls != []
    ensures FinishOf([a, b]) == "stop" && !FinishFollowsTool([a, b]) && FragmentsOf([a, b]) != []
  {
    assert [a, b][..1] == [a];
    FragmentsOfOne(a);
    FragmentsOfTwo(a, b);
  }

  const INTERLEAVED :=
    [Told([Called([ToolFragment(0, "t", "f", "x"), ToolFragment(1, "u", "g", "y"), ToolFragment(0, "", "", "z")], "")])]

  /** Two tool calls in turn: the last delta goes to a block that has already stopped. */
  lemma InterleavedDeltasMissOpenBlock(model: string)
    ensures !TargetsOpenBlocks(Finalized(Fed(model, INTERLEAVED), model).out)
  {
    var choice := INTERLEAVED[0].choices[0];
    var items := AllItems(INTERLEAVED);
    OneChunk(choice);
    AllItemsOfChoices(INTERLEAVED);
    ItemsOneMore([], choice);
    assert [] + [choice] == [choice];
    assert items == [Tool(choice.toolCalls[0]), Tool(choice.toolCalls[1]), Tool(choice.toolCalls[2])];
    var before := items[..2];
    assert before == [items[0], items[1]] && before[..1] == [items[0]] && before[..1][..0] == [];
    assert Seen(0, before[..1]) && Seen(0, before) && !Seen(1, before[..1]);
    assert CurrentCall(before) == Some(1);
    assert !InCurrentCall(items[..2], items[2]);
    JsonDeltasTargetOpenBlocksIff(model, INTERLEAVED);
  }
}
