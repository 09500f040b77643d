/** What the choices of a stream's chunks carry (internal/anthropicapi/stream.go), told by their fields, and that the
    converter takes exactly that. */
module StreamChoices {
  import opened Wrappers
  import opened StreamConverter
  import opened StreamReading
  import opened StreamAgreement

  // ---------------------------------------------------------------- the choices

  /** The choices of all chunks, one after the other. */
  function AllChoices(chunks: seq<Chunk>): seq<Choice> {
    if chunks == [] then [] else AllChoices(chunks[..|chunks| - 1]) + chunks[|chunks| - 1].choices
  }

  function ReasoningOf(choices: seq<Choice>): string {
    if choices == [] then "" else ReasoningOf(choices[..|choices| - 1]) + choices[|choices| - 1].reasoning
  }

  function TextOf(choices: seq<Choice>): string {
    if choices == [] then "" else TextOf(choices[..|choices| - 1]) + choices[|choices| - 1].content
  }

  function FragmentsOf(choices: seq<Choice>): seq<ToolFragment> {
    if choices == [] then [] else FragmentsOf(choices[..|choices| - 1]) + choices[|choices| - 1].toolCalls
  }

  /** The last finish reason that is not empty. */
  function FinishOf(choices: seq<Choice>): string {
    if choices == [] then ""
    else if choices[|choices| - 1].finish != "" then choices[|choices| - 1].finish
    else FinishOf(choices[..|choices| - 1])
  }

  /** A tool fragment comes no later than the last finish reason. */
  predicate FinishFollowsTool(choices: seq<Choice>) {
    choices != [] &&
    if choices[|choices| - 1].finish != "" then FragmentsOf(choices) != []
    else FinishFollowsTool(choices[..|choices| - 1])
  }

  /** No choice has reasoning after one with text or tool calls, and none has text after one with tool calls. */
  ghost predicate InPhase(choices: seq<Choice>) {
    forall i, j :: 0 <= i < j < |choices| ==>
      && (choices[j].reasoning != "" ==> choices[i].content == "" && choices[i].toolCalls == [])
      && (choices[j].content != "" ==> choices[i].toolCalls == [])
  }

  // ---------------------------------------------------------------- the tool calls

  predicate Mentions(k: int, fragments: seq<ToolFragment>) {
    exists i :: 0 <= i < |fragments| && fragments[i].index == k
  }

  /** The indices of the calls, in the order of their first fragments. */
  function Indices(fragments: seq<ToolFragment>): seq<int> {
    if fragments == [] then [] else
      var before, k := fragments[..|fragments| - 1], fragments[|fragments| - 1].index;
      if Mentions(k, before) then Indices(before) else Indices(before) + [k]
  }

  /** The id and name in the first fragment of a call. */
  function Begins(k: int, fragments: seq<ToolFragment>): (string, string) {
    if fragments == [] then ("", "")
    else if fragments[0].index == k then (fragments[0].id, fragments[0].name)
    else Begins(k, fragments[1..])
  }

  /** The last id and the last name of a call that are not empty. */
  function Known(k: int, fragments: seq<ToolFragment>): (string, string) {
    if fragments == [] then ("", "") else
      var before, f := Known(k, fragments[..|fragments| - 1]), fragments[|fragments| - 1];
      if f.index != k then before
      else (if f.id != "" then f.id else before.0, if f.name != "" then f.name else before.1)
  }

  function ArgumentsOf(k: int, fragments: seq<ToolFragment>): string {
    if fragments == [] then "" else
      var f := fragments[|fragments| - 1];
      ArgumentsOf(k, fragments[..|fragments| - 1]) + if f.index == k then f.arguments else ""
  }

  // ---------------------------------------------------------------- the pieces are what the choices carry

  function Joining<T>(pieces: Choice -> seq<T>, choices: seq<Choice>): seq<T> {
    if choices == [] then [] else Joining(pieces, choices[..|choices| - 1]) + pieces(choices[|choices| - 1])
  }

  lemma {:induction false} JoiningConcat<T>(pieces: Choice -> seq<T>, a: seq<Choice>, b: seq<Choice>)
    ensures Joining(pieces, a + b) == Joining(pieces, a) + Joining(pieces, b)
    decreases |b|
  {
    if b == [] {
      assert a + b == a;
    } else {
      JoiningConcat(pieces, a, b[..|b| - 1]);
      assert (a + b)[..|a + b| - 1] == a + b[..|b| - 1];
    }
  }

  lemma {:induction false} ItemsAreJoined(choices: seq<Choice>)
    ensures ChoiceItems(choices) == Joining(ItemsOf, choices)
  {
    if choices != [] {
      ItemsAreJoined(choices[..|choices| - 1]);
    }
  }

  lemma ItemsConcat(a: seq<Choice>, b: seq<Choice>)
    ensures ChoiceItems(a + b) == ChoiceItems(a) + ChoiceItems(b)
  {
    ItemsAreJoined(a);
    ItemsAreJoined(b);
    ItemsAreJoined(a + b);
    JoiningConcat(ItemsOf, a, b);
  }

  lemma Associate<T>(a: seq<T>, b: seq<T>, c: seq<T>)
    ensures a + (b + c) == (a + b) + c
  {
  }

  lemma ItemsOneMore(choices: seq<Choice>, last: Choice)
    ensures ChoiceItems(choices + [last]) == ChoiceItems(choices) + ItemsOf(last)
  {
    assert (choices + [last])[..|choices|] == choices;
  }

  lemma {:induction false} AllItemsOfChoices(chunks: seq<Chunk>)
    ensures AllItems(chunks) == ChoiceItems(AllChoices(chunks))
  {
    if chunks != [] {
      AllItemsOfChoices(chunks[..|chunks| - 1]);
      ItemsConcat(AllChoices(chunks[..|chunks| - 1]), chunks[|chunks| - 1].choices);
    }
  }

  /** The tool fragments among the pieces. */
  function ToolsIn(items: seq<Item>): seq<ToolFragment> {
    if items == [] then [] else
      ToolsIn(items[..|items| - 1]) + match items[|items| - 1] case Tool(f) => [f] case _ => []
  }

  lemma {:induction false} ToolsConcat(a: seq<Item>, b: seq<Item>)
    ensures ToolsIn(a + b) == ToolsIn(a) + ToolsIn(b)
    decreases |b|
  {
    if b == [] {
      assert a + b == a;
    } else {
      ToolsConcat(a, b[..|b| - 1]);
      assert (a + b)[..|a + b| - 1] == a + b[..|b| - 1];
    }
  }

  lemma {:induction false} ToolsInTools(calls: seq<ToolFragment>)
    ensures ToolsIn(ToolItems(calls)) == calls
  {
    if calls != [] {
      var n := |calls| - 1;
      ToolsInTools(calls[..n]);
      assert ToolItems(calls)[..n] == ToolItems(calls[..n]);
      assert calls == calls[..n] + [calls[n]];
    }
  }

  lemma {:induction false} NoToolsIn(items: seq<Item>)
    requires forall i :: 0 <= i < |items| ==> !items[i].Tool?
    ensures ToolsIn(items) == []
  {
    if items != [] {
      NoToolsIn(items[..|items| - 1]);
    }
  }

  lemma ToolsOfParts(before: seq<Item>, deltas: seq<Item>, calls: seq<ToolFragment>, finish: seq<Item>)
    requires forall i :: 0 <= i < |deltas| ==> !deltas[i].Tool?
    requires forall i :: 0 <= i < |finish| ==> !finish[i].Tool?
    ensures ToolsIn(before + (deltas + ToolItems(calls) + finish)) == ToolsIn(before) + calls
  {
    ToolsConcat(deltas, ToolItems(calls));
    ToolsConcat(deltas + ToolItems(calls), finish);
    ToolsConcat(before, deltas + ToolItems(calls) + finish);
    NoToolsIn(deltas);
    NoToolsIn(finish);
    ToolsInTools(calls);
    assert [] + calls == calls && calls + [] == calls;
  }

  lemma ToolsOfChoice(before: seq<Item>, choice: Choice)
    ensures ToolsIn(before + ItemsOf(choice)) == ToolsIn(before) + choice.toolCalls
  {
    ToolsOfParts(before, DeltaItems(choice), choice.toolCalls, FinishItems(choice));
  }

  lemma {:induction false} ToolsOfChoices(choices: seq<Choice>)
    ensures ToolsIn(ChoiceItems(choices)) == FragmentsOf(choices)
  {
    if choices != [] {
      var before, last := choices[..|choices| - 1], choices[|choices| - 1];
      ToolsOfChoices(before);
      ToolsOfChoice(ChoiceItems(before), last);
    }
  }

  // ---------------------------------------------------------------- text

  function ReasoningIn(item: Item): string {
    if item.Reasoning? then item.reasoning else ""
  }

  function ContentIn(item: Item): string {
    if item.Content? then item.content else ""
  }

  function Carried(text: Item -> string, items: seq<Item>): string {
    if items == [] then "" else Carried(text, items[..|items| - 1]) + text(items[|items| - 1])
  }

  lemma {:induction false} CarriedIs(items: seq<Item>)
    ensures Carried(ReasoningIn, items) == Reasonings(items) && Carried(ContentIn, items) == Contents(items)
  {
    if items != [] {
      CarriedIs(items[..|items| - 1]);
    }
  }

  lemma {:induction false} CarriedConcat(text: Item -> string, a: seq<Item>, b: seq<Item>)
    ensures Carried(text, a + b) == Carried(text, a) + Carried(text, b)
    decreases |b|
  {
    if b == [] {
      assert a + b == a;
    } else {
      CarriedConcat(text, a, b[..|b| - 1]);
      assert (a + b)[..|a + b| - 1] == a + b[..|b| - 1];
    }
  }

  lemma {:induction false} CarriedNothing(text: Item -> string, items: seq<Item>)
    requires forall i :: 0 <= i < |items| ==> text(items[i]) == ""
    ensures Carried(text, items) == ""
  {
    if items != [] {
      CarriedNothing(text, items[..|items| - 1]);
    }
  }

  lemma CarriedByChoice(choice: Choice)
    ensures Carried(ReasoningIn, ItemsOf(choice)) == choice.reasoning
    ensures Carried(ContentIn, ItemsOf(choice)) == choice.content
  {
    CarriedOnlyByDeltas(ReasoningIn, choice);
    CarriedOnlyByDeltas(ContentIn, choice);
    CarriedByDeltas(ReasoningIn, choice);
    CarriedByDeltas(ContentIn, choice);
  }

  lemma CarriedOnlyByDeltas(text: Item -> string, choice: Choice)
    requires (forall f :: text(Tool(f)) == "") && forall f :: text(Finish(f)) == ""
    ensures Carried(text, ItemsOf(choice)) == Carried(text, DeltaItems(choice))
  {
    CarriedByChoiceParts(text, DeltaItems(choice), ToolItems(choice.toolCalls), FinishItems(choice));
  }

  lemma CarriedByDeltas(text: Item -> string, choice: Choice)
    ensures Carried(text, DeltaItems(choice)) ==
            (if choice.reasoning != "" then text(Reasoning(choice.reasoning)) else "") +
            (if choice.content != "" then text(Content(choice.content)) else "")
  {
    var r := if choice.reasoning != "" then [Reasoning(choice.reasoning)] else [];
    var t := if choice.content != "" then [Content(choice.content)] else [];
    CarriedConcat(text, r, t);
    CarriedOne(text, Reasoning(choice.reasoning));
    CarriedOne(text, Content(choice.content));
  }

  lemma CarriedOne(text: Item -> string, item: Item)
    ensures Carried(text, [item]) == text(item)
  {
    assert [item][..0] == [];
    assert Carried(text, []) + text(item) == text(item);
  }

  lemma CarriedByChoiceParts(text: Item -> string, deltas: seq<Item>, tools: seq<Item>, finish: seq<Item>)
    requires forall i :: 0 <= i < |tools| ==> text(tools[i]) == ""
    requires forall i :: 0 <= i < |finish| ==> text(finish[i]) == ""
    ensures Carried(text, deltas + tools + finish) == Carried(text, deltas)
  {
    CarriedConcat(text, deltas, tools);
    CarriedConcat(text, deltas + tools, finish);
    CarriedNothing(text, tools);
    CarriedNothing(text, finish);
  }

  lemma {:induction false} TextOfChoices(choices: seq<Choice>)
    ensures Reasonings(ChoiceItems(choices)) == ReasoningOf(choices)
    ensures Contents(ChoiceItems(choices)) == TextOf(choices)
  {
    CarriedIs(ChoiceItems(choices));
    if choices != [] {
      var before, last := choices[..|choices| - 1], choices[|choices| - 1];
      TextOfChoices(before);
      CarriedIs(ChoiceItems(before));
      CarriedByChoice(last);
      CarriedConcat(ReasoningIn, ChoiceItems(before), ItemsOf(last));
      CarriedConcat(ContentIn, ChoiceItems(before), ItemsOf(last));
    }
  }

  // ---------------------------------------------------------------- finish reasons

  predicate NoFinish(items: seq<Item>) {
    forall i :: 0 <= i < |items| ==> !items[i].Finish?
  }

  lemma {:induction false} FinishPasses(a: seq<Item>, b: seq<Item>)
    requires NoFinish(b)
    ensures LastFinish(a + b) == LastFinish(a) && (FinishAfterTool(a + b) <==> FinishAfterTool(a))
    decreases |b|
  {
    if b == [] {
      assert a + b == a;
    } else {
      FinishPasses(a, b[..|b| - 1]);
      assert (a + b)[..|a + b| - 1] == a + b[..|b| - 1];
    }
  }

  lemma {:induction false} AnyToolIn(items: seq<Item>)
    ensures AnyTool(items) <==> ToolsIn(items) != []
  {
    if items != [] {
      AnyToolIn(items[..|items| - 1]);
    }
  }

  lemma ToolsCarried(before: seq<Item>, choice: Choice)
    ensures AnyTool(before + (DeltaItems(choice) + ToolItems(choice.toolCalls))) <==>
            ToolsIn(before) + choice.toolCalls != []
  {
    var carried := DeltaItems(choice) + ToolItems(choice.toolCalls);
    ToolsOfParts(before, DeltaItems(choice), choice.toolCalls, []);
    assert carried + [] == carried;
    AnyToolIn(before + carried);
  }

  lemma FinishLast(items: seq<Item>, f: string)
    ensures LastFinish(items + [Finish(f)]) == f && (FinishAfterTool(items + [Finish(f)]) <==> AnyTool(items))
  {
    assert (items + [Finish(f)])[..|items|] == items;
  }

  lemma FinishOfChoice(before: seq<Item>, choice: Choice)
    ensures LastFinish(before + ItemsOf(choice)) == if choice.finish != "" then choice.finish else LastFinish(before)
    ensures FinishAfterTool(before + ItemsOf(choice)) <==>
            if choice.finish != "" then ToolsIn(before) + choice.toolCalls != [] else FinishAfterTool(before)
  {
    var carried := DeltaItems(choice) + ToolItems(choice.toolCalls);
    FinishPasses(before, carried);
    ToolsCarried(before, choice);
    FinishLast(before + carried, choice.finish);
    assert before + ItemsOf(choice) == before + carried + FinishItems(choice);
    assert before + carried + [] == before + carried;
  }

  lemma {:induction false} FinishOfChoices(choices: seq<Choice>)
    ensures LastFinish(ChoiceItems(choices)) == FinishOf(choices)
    ensures FinishAfterTool(ChoiceItems(choices)) <==> FinishFollowsTool(choices)
  {
    if choices != [] {
      FinishOfChoices(choices[..|choices| - 1]);
      ToolsOfChoices(choices[..|choices| - 1]);
      FinishOfChoice(ChoiceItems(choices[..|choices| - 1]), choices[|choices| - 1]);
    }
  }

  /** The stop reason the converter has come to is that of the last finish reason in the chunks, told as a tool call if
      a tool fragment came no later. */
  lemma StopReasonOfChunks(model: string, chunks: seq<Chunk>)
    ensures Fed(model, chunks).stopReason ==
            StopReasonFromFinish(FinishOf(AllChoices(chunks)), FinishFollowsTool(AllChoices(chunks)))
  {
    BegunIsFresh(model, chunks);
    StopReasonOfPieces(Begun(model, chunks), AllItems(chunks));
    if chunks != [] {
      FedIsTaken(model, chunks);
    }
    AllItemsOfChoices(chunks);
    FinishOfChoices(AllChoices(chunks));
  }

  // ---------------------------------------------------------------- phases

  function RankOf(choice: Choice): nat {
    if choice.toolCalls != [] then 2 else if choice.content != "" then 1 else 0
  }

  function PeakOf(choices: seq<Choice>): nat {
    if choices == [] then 0 else
      var before, last := PeakOf(choices[..|choices| - 1]), RankOf(choices[|choices| - 1]);
      if last > before then last else before
  }

  lemma {:induction false} PeakOfBounds(choices: seq<Choice>)
    ensures PeakOf(choices) < 2 <==> forall i :: 0 <= i < |choices| ==> choices[i].toolCalls == []
    ensures PeakOf(choices) < 1 <==>
            forall i :: 0 <= i < |choices| ==> choices[i].toolCalls == [] && choices[i].content == ""
  {
    if choices != [] {
      var n := |choices| - 1;
      PeakOfBounds(choices[..n]);
      assert forall i :: 0 <= i < n ==> choices[..n][i] == choices[i];
    }
  }

  lemma InPhaseOneMore(choices: seq<Choice>, last: Choice)
    ensures InPhase(choices + [last]) <==>
            InPhase(choices) && (last.reasoning != "" ==> PeakOf(choices) < 1)
              && (last.content != "" ==> PeakOf(choices) < 2)
  {
    var all, n := choices + [last], |choices|;
    PeakOfBounds(choices);
    assert all[n] == last && forall i :: 0 <= i < n ==> all[i] == choices[i];
  }

  lemma PhasedWith(items: seq<Item>, item: Item)
    ensures Phased(items + [item]) <==> Phased(items) && (item.Finish? || Peak(items) <= Rank(item))
    ensures Peak(items + [item]) == if Rank(item) > Peak(items) then Rank(item) else Peak(items)
  {
    PhasedOneMore(items, item);
    assert (items + [item])[..|items|] == items;
  }

  lemma {:induction false} PhasedTools(items: seq<Item>, calls: seq<ToolFragment>)
    ensures Phased(items + ToolItems(calls)) <==> Phased(items)
    ensures Peak(items + ToolItems(calls)) == if calls != [] then 2 else Peak(items)
    decreases |calls|
  {
    if calls == [] {
      assert items + ToolItems(calls) == items;
    } else {
      var n := |calls| - 1;
      PhasedTools(items, calls[..n]);
      PeakAtMostTwo(items + ToolItems(calls[..n]));
      PhasedWith(items + ToolItems(calls[..n]), Tool(calls[n]));
      assert items + ToolItems(calls) == items + ToolItems(calls[..n]) + [Tool(calls[n])];
    }
  }

  lemma PhasedDeltas(items: seq<Item>, choice: Choice)
    ensures Phased(items + DeltaItems(choice)) <==>
            Phased(items) && (choice.reasoning != "" ==> Peak(items) < 1) && (choice.content != "" ==> Peak(items) < 2)
    ensures Phased(items + DeltaItems(choice)) ==>
            Peak(items + DeltaItems(choice)) == if choice.content != "" && Peak(items) == 0 then 1 else Peak(items)
  {
    var r := if choice.reasoning != "" then items + [Reasoning(choice.reasoning)] else items;
    PhasedWith(items, Reasoning(choice.reasoning));
    PhasedWith(r, Content(choice.content));
    assert items + DeltaItems(choice) == if choice.content != "" then r + [Content(choice.content)] else r;
  }

  lemma PeakOfDeltas(items: seq<Item>, choice: Choice)
    ensures Peak(items + DeltaItems(choice)) == if choice.content != "" && Peak(items) == 0 then 1 else Peak(items)
  {
    var r := if choice.reasoning != "" then items + [Reasoning(choice.reasoning)] else items;
    PhasedWith(items, Reasoning(choice.reasoning));
    PhasedWith(r, Content(choice.content));
    assert items + DeltaItems(choice) == if choice.content != "" then r + [Content(choice.content)] else r;
  }

  lemma PhasedFinish(items: seq<Item>, choice: Choice)
    ensures Phased(items + FinishItems(choice)) <==> Phased(items)
    ensures Peak(items + FinishItems(choice)) == Peak(items)
  {
    PhasedWith(items, Finish(choice.finish));
    assert items + [] == items;
  }

  lemma ItemsInParts(items: seq<Item>, choice: Choice)
    ensures items + ItemsOf(choice) == items + DeltaItems(choice) + ToolItems(choice.toolCalls) + FinishItems(choice)
  {
  }

  lemma PhasedChoice(items: seq<Item>, choice: Choice)
    ensures Phased(items + ItemsOf(choice)) <==>
            Phased(items) && (choice.reasoning != "" ==> Peak(items) < 1) && (choice.content != "" ==> Peak(items) < 2)
    ensures Peak(items + ItemsOf(choice)) == if RankOf(choice) > Peak(items) then RankOf(choice) else Peak(items)
  {
    PhasedDeltas(items, choice);
    PeakOfDeltas(items, choice);
    PeakAtMostTwo(items);
    PhasedTools(items + DeltaItems(choice), choice.toolCalls);
    PhasedFinish(items + DeltaItems(choice) + ToolItems(choice.toolCalls), choice);
    ItemsInParts(items, choice);
  }

  lemma PhasedStep(items: seq<Item>, before: seq<Choice>, last: Choice)
    requires (Phased(items) <==> InPhase(before)) && Peak(items) == PeakOf(before)
    ensures Phased(items + ItemsOf(last)) <==> InPhase(before + [last])
    ensures Peak(items + ItemsOf(last)) == PeakOf(before + [last])
  {
    PhasedChoice(items, last);
    InPhaseOneMore(before, last);
    assert (before + [last])[..|before|] == before;
  }

  lemma {:induction false} PhasedChoices(choices: seq<Choice>)
    ensures Phased(ChoiceItems(choices)) <==> InPhase(choices)
    ensures Peak(ChoiceItems(choices)) == PeakOf(choices)
  {
    if choices != [] {
      var before, last := choices[..|choices| - 1], choices[|choices| - 1];
      PhasedChoices(before);
      PhasedStep(ChoiceItems(before), before, last);
      assert before + [last] == choices;
    }
  }

  // ---------------------------------------------------------------- tool calls

  lemma MentionsOneMore(k: int, fragments: seq<ToolFragment>, f: ToolFragment)
    ensures Mentions(k, fragments + [f]) <==> Mentions(k, fragments) || f.index == k
  {
    var all := fragments + [f];
    assert all[|fragments|] == f && forall i :: 0 <= i < |fragments| ==> all[i] == fragments[i];
  }

  lemma {:induction false} BeginsOneMore(k: int, fragments: seq<ToolFragment>, f: ToolFragment)
    ensures Begins(k, fragments + [f]) ==
            if Mentions(k, fragments) then Begins(k, fragments)
            else if f.index == k then (f.id, f.name) else ("", "")
  {
    if fragments == [] {
      assert [] + [f] == [f];
      assert [f][1..] == [];
    } else {
      BeginsOneMore(k, fragments[1..], f);
      assert (fragments + [f])[1..] == fragments[1..] + [f];
      assert Mentions(k, fragments) <==> fragments[0].index == k || Mentions(k, fragments[1..]) by {
        assert forall i :: 0 <= i < |fragments| - 1 ==> fragments[1..][i] == fragments[i + 1];
        if Mentions(k, fragments) && fragments[0].index != k {
          var i :| 0 <= i < |fragments| && fragments[i].index == k;
          assert fragments[1..][i - 1].index == k;
        }
      }
    }
  }

  lemma ToolsOfLast(items: seq<Item>)
    requires items != []
    ensures var before, last := ToolsIn(items[..|items| - 1]), items[|items| - 1];
            ToolsIn(items) == if last.Tool? then before + [last.fragment] else before
  {
    var before := ToolsIn(items[..|items| - 1]);
    assert before + [] == before;
  }

  lemma {:induction false} SeenIsMentioned(k: int, items: seq<Item>)
    ensures Seen(k, items) <==> Mentions(k, ToolsIn(items))
  {
    if items != [] {
      var before, last := items[..|items| - 1], items[|items| - 1];
      SeenIsMentioned(k, before);
      ToolsOfLast(items);
      if last.Tool? {
        MentionsOneMore(k, ToolsIn(before), last.fragment);
      }
    }
  }

  lemma {:induction false} OrderIsIndices(items: seq<Item>)
    ensures CallOrder(items) == Indices(ToolsIn(items))
  {
    if items != [] {
      var before, last := items[..|items| - 1], items[|items| - 1];
      OrderIsIndices(before);
      ToolsOfLast(items);
      if last.Tool? {
        SeenIsMentioned(last.fragment.index, before);
        assert ToolsIn(items)[..|ToolsIn(before)|] == ToolsIn(before);
      }
    }
  }

  lemma ArgumentsWith(k: int, fragments: seq<ToolFragment>, f: ToolFragment)
    ensures ArgumentsOf(k, fragments + [f]) == ArgumentsOf(k, fragments) + if f.index == k then f.arguments else ""
  {
    assert (fragments + [f])[..|fragments|] == fragments;
  }

  /** The tool call as the stream tells it, by its fragments. */
  function BegunCall(k: int, fragments: seq<ToolFragment>): ToolCall {
    ToolCall(Begins(k, fragments).0, Begins(k, fragments).1, ArgumentsOf(k, fragments))
  }

  lemma BegunWith(k: int, fragments: seq<ToolFragment>, f: ToolFragment)
    requires !Mentions(k, fragments) ==> BegunCall(k, fragments) == ToolCall("", "", "")
    ensures BegunCall(k, fragments + [f]) ==
            if f.index != k then BegunCall(k, fragments)
            else if Mentions(k, fragments)
              then BegunCall(k, fragments).(arguments := BegunCall(k, fragments).arguments + f.arguments)
            else ToolCall(f.id, f.name, f.arguments)
  {
    BeginsOneMore(k, fragments, f);
    ArgumentsWith(k, fragments, f);
  }

  lemma {:induction false} StreamedIsBegun(k: int, items: seq<Item>)
    ensures StreamedCall(k, items) == BegunCall(k, ToolsIn(items))
    ensures !Mentions(k, ToolsIn(items)) ==> BegunCall(k, ToolsIn(items)) == ToolCall("", "", "")
  {
    if items != [] {
      var before, last := items[..|items| - 1], items[|items| - 1];
      assert before + [last] == items;
      StreamedIsBegun(k, before);
      SeenIsMentioned(k, before);
      ToolsOfLast(items);
      OneMorePiece(before, last, k);
      if last.Tool? {
        BegunWith(k, ToolsIn(before), last.fragment);
        MentionsOneMore(k, ToolsIn(before), last.fragment);
      }
    }
  }
}
