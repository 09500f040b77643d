/** The stream conserves its chunks' content, and when it agrees with the non-streaming translation
    (internal/anthropicapi/response.go) of the same response. */
module StreamAgreement {
  import opened Wrappers
  import opened StreamConverter
  import opened StreamReading

  // ---------------------------------------------------------------- the non-streaming translation

  datatype ToolCall = ToolCall(id: string, name: string, arguments: string)

  datatype Message = Message(reasoning: string, text: string, toolCalls: seq<ToolCall>)

  datatype ChatChoice = ChatChoice(message: Message, finish: string)

  datatype ChatResponse = ChatResponse(id: string, model: string, choices: seq<ChatChoice>)

  /** Tool inputs are the raw argument strings. */
  datatype MessagesResponse = MessagesResponse(id: string, model: string, content: seq<Block>, stopReason: string)

  function CallBlock(call: ToolCall): Block {
    Block(ToolUse(call.id, call.name), call.arguments)
  }

  function CallBlocks(calls: seq<ToolCall>): seq<Block> {
    seq(|calls|, i requires 0 <= i < |calls| => CallBlock(calls[i]))
  }

  function LeadBlocks(reasoning: string, text: string): seq<Block> {
    (if reasoning != "" then [Block(Thinking, reasoning)] else []) +
    (if text != "" then [Block(Text, text)] else [])
  }

  function ContentOf(m: Message): seq<Block> {
    LeadBlocks(m.reasoning, m.text) + CallBlocks(m.toolCalls)
  }

  method FromChatResponse(resp: Option<ChatResponse>) returns (out: MessagesResponse)
    ensures resp.None? ==> out == MessagesResponse("", "", [], "")
    ensures resp.Some? ==> out.id == NormalizeMessageId(resp.value.id) && out.model == resp.value.model
    ensures resp.Some? && resp.value.choices == [] ==> out.content == [] && out.stopReason == END_TURN
    ensures resp.Some? && resp.value.choices != [] ==>
      var choice := resp.value.choices[0];
      && out.content == ContentOf(choice.message)
      && out.stopReason == StopOf(StopReasonFromFinish(choice.finish, choice.message.toolCalls != []))
  {
    out := MessagesResponse("", "", [], "");
    if resp.None? {
      return;
    }
    out := out.(id := NormalizeMessageId(resp.value.id), model := resp.value.model);
    if |resp.value.choices| > 0 {
      var choice := resp.value.choices[0];
      var m := choice.message;
      if m.reasoning != "" {
        out := out.(content := out.content + [Block(Thinking, m.reasoning)]);
      }
      if m.text != "" {
        out := out.(content := out.content + [Block(Text, m.text)]);
      }
      for i := 0 to |m.toolCalls|
        invariant out == MessagesResponse(NormalizeMessageId(resp.value.id), resp.value.model,
                                          LeadBlocks(m.reasoning, m.text) + CallBlocks(m.toolCalls[..i]), "")
      {
        out := out.(content := out.content + [CallBlock(m.toolCalls[i])]);
        assert CallBlocks(m.toolCalls[..i + 1]) == CallBlocks(m.toolCalls[..i]) + [CallBlock(m.toolCalls[i])];
      }
      assert m.toolCalls[..|m.toolCalls|] == m.toolCalls;
      out := out.(stopReason := StopReasonFromFinish(choice.finish, |m.toolCalls| > 0));
    }
    if out.stopReason == "" {
      out := out.(stopReason := END_TURN);
    }
  }

  // ---------------------------------------------------------------- what the pieces of a stream carry

  function Reasonings(items: seq<Item>): string {
    if items == [] then "" else
      Reasonings(items[..|items| - 1]) + match items[|items| - 1] case Reasoning(s) => s case _ => ""
  }

  function Contents(items: seq<Item>): string {
    if items == [] then "" else
      Contents(items[..|items| - 1]) + match items[|items| - 1] case Content(s) => s case _ => ""
  }

  /** Whether a fragment of the tool call `k` is among the pieces. */
  predicate Seen(k: int, items: seq<Item>) {
    items != [] && (IsTool(k, items[|items| - 1]) || Seen(k, items[..|items| - 1]))
  }

  predicate IsTool(k: int, item: Item) {
    item.Tool? && item.fragment.index == k
  }

  /** The tool call `k` as the stream tells it: id and name of its first fragment, whether it has them yet or not, and
      the arguments of all its fragments in order. */
  function StreamedCall(k: int, items: seq<Item>): ToolCall {
    if items == [] then ToolCall("", "", "") else
      var before, last := items[..|items| - 1], items[|items| - 1];
      if !IsTool(k, last) then StreamedCall(k, before)
      else if Seen(k, before) then
        StreamedCall(k, before).(arguments := StreamedCall(k, before).arguments + last.fragment.arguments)
      else ToolCall(last.fragment.id, last.fragment.name, last.fragment.arguments)
  }

  /** The tool call indices in order of their first fragments. */
  function CallOrder(items: seq<Item>): seq<int> {
    if items == [] then [] else
      var before, last := items[..|items| - 1], items[|items| - 1];
      if last.Tool? && !Seen(last.fragment.index, before) then CallOrder(before) + [last.fragment.index]
      else CallOrder(before)
  }

  function StreamedCalls(order: seq<int>, items: seq<Item>): seq<ToolCall> {
    seq(|order|, p requires 0 <= p < |order| => StreamedCall(order[p], items))
  }

  /** The message the stream tells. */
  function Streamed(items: seq<Item>): Message {
    Message(Reasonings(items), Contents(items), StreamedCalls(CallOrder(items), items))
  }

  function LastFinish(items: seq<Item>): string {
    if items == [] then "" else
      match items[|items| - 1] case Finish(f) => f case _ => LastFinish(items[..|items| - 1])
  }

  predicate AnyTool(items: seq<Item>) {
    items != [] && (items[|items| - 1].Tool? || AnyTool(items[..|items| - 1]))
  }

  // ---------------------------------------------------------------- conservation

  /** The content of all blocks of a kind, joined. */
  function Joined(kind: BlockKind, blocks: seq<Block>): string {
    if blocks == [] then "" else
      Joined(kind, blocks[..|blocks| - 1]) +
      if blocks[|blocks| - 1].kind == kind then blocks[|blocks| - 1].content else ""
  }

  lemma {:induction false} JoinedExtended(kind: BlockKind, blocks: seq<Block>, i: nat, more: string)
    requires i < |blocks| && (blocks[i].kind != kind || i == |blocks| - 1)
    ensures Joined(kind, Extended(blocks, i, more)) ==
            Joined(kind, blocks) + if blocks[i].kind == kind then more else ""
    decreases |blocks|
  {
    var n := |blocks| - 1;
    var e := Extended(blocks, i, more);
    if i < n {
      JoinedExtended(kind, blocks[..n], i, more);
      assert e[..n] == Extended(blocks[..n], i, more);
    } else {
      assert e[..n] == blocks[..n];
    }
  }

  lemma JoinedAppended(kind: BlockKind, blocks: seq<Block>, b: Block)
    ensures Joined(kind, blocks + [b]) == Joined(kind, blocks) + if b.kind == kind then b.content else ""
  {
    assert (blocks + [b])[..|blocks|] == blocks;
  }

  lemma JoinedGrown(c: Conv, blocks: seq<Block>, item: Item)
    requires Describes(c, blocks)
    ensures Joined(Thinking, Grown(c, blocks, item))
         == Joined(Thinking, blocks) + match item case Reasoning(s) => s case _ => ""
    ensures Joined(Text, Grown(c, blocks, item))
         == Joined(Text, blocks) + match item case Content(s) => s case _ => ""
  {
    match item
    case Reasoning(s) =>
      JoinedGrownBy(c, blocks, Thinking, s, Thinking);
      JoinedGrownBy(c, blocks, Thinking, s, Text);
    case Content(s) =>
      JoinedGrownBy(c, blocks, Text, s, Thinking);
      JoinedGrownBy(c, blocks, Text, s, Text);
    case Tool(f) =>
      if f.index in c.toolBlock {
        JoinedExtended(Thinking, blocks, c.toolBlock[f.index], f.arguments);
        JoinedExtended(Text, blocks, c.toolBlock[f.index], f.arguments);
      } else {
        JoinedAppended(Thinking, blocks, Block(ToolUse(f.id, f.name), f.arguments));
        JoinedAppended(Text, blocks, Block(ToolUse(f.id, f.name), f.arguments));
      }
    case Finish(_) =>
  }

  lemma JoinedGrownBy(c: Conv, blocks: seq<Block>, kind: BlockKind, s: string, k: BlockKind)
    requires Describes(c, blocks)
    ensures Joined(k, GrownBy(c, blocks, kind, s)) == Joined(k, blocks) + if k == kind then s else ""
  {
    if c.blockOpen && c.blockKind == kind {
      JoinedExtended(k, blocks, c.curIndex, s);
    } else {
      JoinedAppended(k, blocks, Block(kind, s));
    }
  }

  /** The blocks hold what the pieces carried: all reasoning in the thinking blocks, all content in the text blocks, and
      for every tool call its own block with its argument fragments in order, under the id and name of the first. */
  ghost predicate Conserves(c: Conv, blocks: seq<Block>, items: seq<Item>) {
    && Joined(Thinking, blocks) == Reasonings(items)
    && Joined(Text, blocks) == Contents(items)
    && (forall k :: k in c.toolBlock <==> Seen(k, items))
    && (forall k :: k in c.toolBlock ==>
          c.toolBlock[k] < |blocks| && blocks[c.toolBlock[k]] == CallBlock(StreamedCall(k, items)))
  }

  lemma OneMorePiece(items: seq<Item>, item: Item, k: int)
    ensures Seen(k, items + [item]) <==> IsTool(k, item) || Seen(k, items)
    ensures !IsTool(k, item) ==> StreamedCall(k, items + [item]) == StreamedCall(k, items)
    ensures IsTool(k, item) && Seen(k, items) ==>
      StreamedCall(k, items + [item]) ==
        StreamedCall(k, items).(arguments := StreamedCall(k, items).arguments + item.fragment.arguments)
    ensures IsTool(k, item) && !Seen(k, items) ==>
      StreamedCall(k, items + [item]) == ToolCall(item.fragment.id, item.fragment.name, item.fragment.arguments)
  {
    assert (items + [item])[..|items|] == items;
  }

  /** What a piece does to the block map and to the blocks in it. */
  lemma GrownToolBlocks(c: Conv, blocks: seq<Block>, item: Item, k: int)
    requires Describes(c, blocks)
    ensures var t, grown := Taken(c, item), Grown(c, blocks, item);
      && (k in t.toolBlock <==> IsTool(k, item) || k in c.toolBlock)
      && (k in t.toolBlock ==> t.toolBlock[k] < |grown|)
      && (k in c.toolBlock ==> t.toolBlock[k] == c.toolBlock[k])
      && (k in c.toolBlock && !IsTool(k, item) ==> grown[c.toolBlock[k]] == blocks[c.toolBlock[k]])
      && (k in c.toolBlock && IsTool(k, item) ==>
            grown[c.toolBlock[k]] == Extended(blocks, c.toolBlock[k], item.fragment.arguments)[c.toolBlock[k]])
      && (IsTool(k, item) && k !in c.toolBlock ==>
            grown[t.toolBlock[k]] == Block(ToolUse(item.fragment.id, item.fragment.name), item.fragment.arguments))
  {
    TakenDescribes(c, blocks, item);
  }

  lemma GrownConserves(c: Conv, blocks: seq<Block>, items: seq<Item>, item: Item)
    requires Describes(c, blocks) && Conserves(c, blocks, items)
    ensures Conserves(Taken(c, item), Grown(c, blocks, item), items + [item])
  {
    var t, grown, all := Taken(c, item), Grown(c, blocks, item), items + [item];
    assert all[..|items|] == items;
    JoinedGrown(c, blocks, item);
    forall k ensures k in t.toolBlock <==> Seen(k, all) {
      GrownToolBlocks(c, blocks, item, k);
      OneMorePiece(items, item, k);
    }
    forall k | k in t.toolBlock
      ensures t.toolBlock[k] < |grown| && grown[t.toolBlock[k]] == CallBlock(StreamedCall(k, all)) {
      GrownToolBlocks(c, blocks, item, k);
      OneMorePiece(items, item, k);
    }
  }

  lemma {:induction false} PiecesAreConserved(c: Conv, items: seq<Item>)
    requires Fresh(c)
    ensures Describes(TakenAll(c, items), BlocksOf(c, items))
    ensures Conserves(TakenAll(c, items), BlocksOf(c, items), items)
  {
    if items != [] {
      var before, last := items[..|items| - 1], items[|items| - 1];
      PiecesAreConserved(c, before);
      TakenDescribes(TakenAll(c, before), BlocksOf(c, before), last);
      GrownConserves(TakenAll(c, before), BlocksOf(c, before), before, last);
      assert before + [last] == items;
    }
  }

  /** A client of any completed conversion reads exactly the content its chunks carried. */
  lemma ContentIsConserved(model: string, chunks: seq<Chunk>)
    ensures var reading := ReadAll(Finalized(Fed(model, chunks), model).out);
      reading.Complete? && Conserves(Fed(model, chunks), reading.blocks, AllItems(chunks))
    ensures var c := Fed(model, chunks);
      forall j, k :: j in c.toolBlock && k in c.toolBlock && j != k ==> c.toolBlock[j] != c.toolBlock[k]
  {
    ConversionIsWellFormed(model, chunks);
    BegunIsFresh(model, chunks);
    PiecesAreConserved(Begun(model, chunks), AllItems(chunks));
    if chunks != [] {
      FedIsTaken(model, chunks);
    }
  }

  // ---------------------------------------------------------------- agreement of the blocks

  /** Reasoning before text before tool calls. */
  function Rank(item: Item): nat {
    match item
    case Reasoning(_) => 0
    case Content(_) => 1
    case Tool(_) => 2
    case Finish(_) => 0
  }

  /** The pieces come as reasoning, then text, then tool calls; finish reasons may stand anywhere. */
  ghost predicate Phased(items: seq<Item>) {
    forall i, j :: 0 <= i < j < |items| && !items[i].Finish? && !items[j].Finish? ==> Rank(items[i]) <= Rank(items[j])
  }

  /** No piece is empty; the converter drops empty strings before they become pieces. */
  ghost predicate NonEmpty(items: seq<Item>) {
    forall i :: 0 <= i < |items| ==>
      (items[i].Reasoning? ==> items[i].reasoning != "") && (items[i].Content? ==> items[i].content != "")
  }

  function Peak(items: seq<Item>): nat {
    if items == [] then 0 else
      var before, last := Peak(items[..|items| - 1]), items[|items| - 1];
      if Rank(last) > before then Rank(last) else before
  }

  lemma {:induction false} PeakBounds(items: seq<Item>)
    ensures forall i :: 0 <= i < |items| ==> Rank(items[i]) <= Peak(items)
    ensures Peak(items) > 0 ==> exists i :: 0 <= i < |items| && !items[i].Finish? && Rank(items[i]) == Peak(items)
  {
    if items != [] {
      var before, last := items[..|items| - 1], items[|items| - 1];
      PeakBounds(before);
      if Peak(items) > 0 {
        if Rank(last) > Peak(before) {
          assert items[|items| - 1] == last;
        } else {
          var i :| 0 <= i < |before| && !before[i].Finish? && Rank(before[i]) == Peak(before);
          assert items[i] == before[i];
        }
      }
    }
  }

  lemma {:induction false} PeakTells(items: seq<Item>)
    ensures Peak(items) < 2 ==> CallOrder(items) == []
    ensures Peak(items) < 1 ==> Contents(items) == ""
  {
    if items != [] {
      PeakTells(items[..|items| - 1]);
    }
  }

  lemma PhasedOneMore(items: seq<Item>, item: Item)
    ensures Phased(items + [item]) <==> Phased(items) && (item.Finish? || Peak(items) <= Rank(item))
  {
    PeakBounds(items);
    var all := items + [item];
    assert forall i :: 0 <= i < |items| ==> all[i] == items[i];
    if Phased(all) {
      assert all[|items|] == item;
    }
  }

  lemma ChoiceItemsNonEmpty(choices: seq<Choice>)
    ensures NonEmpty(ChoiceItems(choices))
  {
  }

  lemma {:induction false} AllItemsNonEmpty(chunks: seq<Chunk>)
    ensures NonEmpty(AllItems(chunks))
  {
    if chunks != [] {
      AllItemsNonEmpty(chunks[..|chunks| - 1]);
      ChoiceItemsNonEmpty(chunks[|chunks| - 1].choices);
    }
  }

  lemma {:induction false} OrderIsSeen(items: seq<Item>)
    ensures forall p :: 0 <= p < |CallOrder(items)| ==> Seen(CallOrder(items)[p], items)
    ensures forall k :: Seen(k, items) ==> k in CallOrder(items)
    ensures forall p, q :: 0 <= p < q < |CallOrder(items)| ==> CallOrder(items)[p] != CallOrder(items)[q]
  {
    if items != [] {
      OrderIsSeen(items[..|items| - 1]);
    }
  }

  /** What one more piece does to the message the stream tells. */
  lemma StreamedOneMore(items: seq<Item>, item: Item)
    ensures Reasonings(items + [item]) == Reasonings(items) + match item case Reasoning(s) => s case _ => ""
    ensures Contents(items + [item]) == Contents(items) + match item case Content(s) => s case _ => ""
    ensures CallOrder(items + [item]) ==
      (if item.Tool? && !Seen(item.fragment.index, items) then CallOrder(items) + [item.fragment.index]
       else CallOrder(items))
  {
    assert (items + [item])[..|items|] == items;
  }

  /** The blocks of phased pieces are those of the message they tell, tool calls in order of appearance. */
  ghost predicate Agrees(c: Conv, blocks: seq<Block>, items: seq<Item>) {
    LaidOut(c.toolBlock, blocks, LeadBlocks(Reasonings(items), Contents(items)), CallOrder(items))
  }

  ghost predicate LaidOut(toolBlock: map<int, nat>, blocks: seq<Block>, lead: seq<Block>, order: seq<int>) {
    && |blocks| == |lead| + |order| && lead <= blocks
    && (forall p :: 0 <= p < |order| ==> order[p] in toolBlock && toolBlock[order[p]] == |lead| + p)
  }

  lemma LaidOutOneMore(toolBlock: map<int, nat>, blocks: seq<Block>, lead: seq<Block>, order: seq<int>, k: int,
                       b: Block)
    requires LaidOut(toolBlock, blocks, lead, order) && k !in toolBlock
    ensures LaidOut(toolBlock[k := |blocks|], blocks + [b], lead, order + [k])
  {
  }

  lemma LaidOutExtended(toolBlock: map<int, nat>, blocks: seq<Block>, lead: seq<Block>, order: seq<int>, i: nat,
                        more: string)
    requires LaidOut(toolBlock, blocks, lead, order) && |lead| <= i < |blocks|
    ensures LaidOut(toolBlock, Extended(blocks, i, more), lead, order)
  {
  }

  lemma LeadBlocksGrow(r: string, t: string, s: string)
    requires s != ""
    ensures LeadBlocks(r, t + s) ==
            if t == "" then LeadBlocks(r, t) + [Block(Text, s)]
            else Extended(LeadBlocks(r, t), |LeadBlocks(r, t)| - 1, s)
    ensures LeadBlocks(r + s, "") ==
            if r == "" then LeadBlocks(r, "") + [Block(Thinking, s)]
            else Extended(LeadBlocks(r, ""), |LeadBlocks(r, "")| - 1, s)
  {
    assert "" + s == s;
  }

  lemma GrownAgrees(c: Conv, blocks: seq<Block>, items: seq<Item>, item: Item)
    requires Describes(c, blocks) && Conserves(c, blocks, items) && Agrees(c, blocks, items)
    requires NonEmpty(items + [item]) && Phased(items + [item])
    ensures Agrees(Taken(c, item), Grown(c, blocks, item), items + [item])
  {
    match item
    case Reasoning(s) => GrownReasoning(c, blocks, items, s);
    case Content(s) => GrownContent(c, blocks, items, s);
    case Tool(f) => GrownTool(c, blocks, items, f);
    case Finish(_) => GrownFinish(c, blocks, items, item);
  }

  lemma GrownFinish(c: Conv, blocks: seq<Block>, items: seq<Item>, item: Item)
    requires item.Finish? && Agrees(c, blocks, items)
    ensures Agrees(Taken(c, item), Grown(c, blocks, item), items + [item])
  {
    StreamedOneMore(items, item);
    assert Reasonings(items) + "" == Reasonings(items) && Contents(items) + "" == Contents(items);
  }

  lemma GrownReasoning(c: Conv, blocks: seq<Block>, items: seq<Item>, s: string)
    requires Describes(c, blocks) && Conserves(c, blocks, items) && Agrees(c, blocks, items)
    requires NonEmpty(items + [Reasoning(s)]) && Phased(items + [Reasoning(s)])
    ensures Agrees(Taken(c, Reasoning(s)), Grown(c, blocks, Reasoning(s)), items + [Reasoning(s)])
  {
    PhasedOneMore(items, Reasoning(s));
    PeakTells(items);
    StreamedOneMore(items, Reasoning(s));
    var r, t := Reasonings(items), Contents(items);
    assert (items + [Reasoning(s)])[|items|] == Reasoning(s);
    assert t + "" == t;
    assert CallOrder(items) == [] && t == "" && blocks == LeadBlocks(r, t);
    LeadBlocksGrow(r, t, s);
    assert Grown(c, blocks, Reasoning(s)) == LeadBlocks(r + s, t);
  }

  lemma GrownContent(c: Conv, blocks: seq<Block>, items: seq<Item>, s: string)
    requires Describes(c, blocks) && Conserves(c, blocks, items) && Agrees(c, blocks, items)
    requires NonEmpty(items + [Content(s)]) && Phased(items + [Content(s)])
    ensures Agrees(Taken(c, Content(s)), Grown(c, blocks, Content(s)), items + [Content(s)])
  {
    PhasedOneMore(items, Content(s));
    PeakTells(items);
    StreamedOneMore(items, Content(s));
    var r, t := Reasonings(items), Contents(items);
    assert (items + [Content(s)])[|items|] == Content(s);
    assert r + "" == r;
    assert CallOrder(items) == [] && blocks == LeadBlocks(r, t);
    LeadBlocksGrow(r, t, s);
    assert Grown(c, blocks, Content(s)) == LeadBlocks(r, t + s);
  }

  lemma GrownTool(c: Conv, blocks: seq<Block>, items: seq<Item>, f: ToolFragment)
    requires Describes(c, blocks) && Conserves(c, blocks, items) && Agrees(c, blocks, items)
    ensures Agrees(Taken(c, Tool(f)), Grown(c, blocks, Tool(f)), items + [Tool(f)])
  {
    assert f.index in c.toolBlock <==> Seen(f.index, items);
    if f.index in c.toolBlock {
      GrownKnownTool(c, blocks, items, f);
    } else {
      GrownNewTool(c, blocks, items, f);
    }
  }

  lemma GrownKnownTool(c: Conv, blocks: seq<Block>, items: seq<Item>, f: ToolFragment)
    requires Describes(c, blocks) && Agrees(c, blocks, items) && f.index in c.toolBlock && Seen(f.index, items)
    ensures Agrees(Taken(c, Tool(f)), Grown(c, blocks, Tool(f)), items + [Tool(f)])
  {
    StreamedOneMore(items, Tool(f));
    OrderIsSeen(items);
    var lead := LeadBlocks(Reasonings(items), Contents(items));
    assert Reasonings(items + [Tool(f)]) == Reasonings(items) && Contents(items + [Tool(f)]) == Contents(items);
    var p :| 0 <= p < |CallOrder(items)| && CallOrder(items)[p] == f.index;
    LaidOutExtended(c.toolBlock, blocks, lead, CallOrder(items), c.toolBlock[f.index], f.arguments);
  }

  lemma GrownNewTool(c: Conv, blocks: seq<Block>, items: seq<Item>, f: ToolFragment)
    requires c.nextIndex == |blocks| && Agrees(c, blocks, items) && f.index !in c.toolBlock && !Seen(f.index, items)
    ensures Agrees(Taken(c, Tool(f)), Grown(c, blocks, Tool(f)), items + [Tool(f)])
  {
    StreamedOneMore(items, Tool(f));
    assert Reasonings(items + [Tool(f)]) == Reasonings(items) && Contents(items + [Tool(f)]) == Contents(items);
    LaidOutOneMore(c.toolBlock, blocks, LeadBlocks(Reasonings(items), Contents(items)), CallOrder(items), f.index,
                   Block(ToolUse(f.id, f.name), f.arguments));
    NewToolBlock(c, f);
  }

  lemma NewToolBlock(c: Conv, f: ToolFragment)
    requires f.index !in c.toolBlock
    ensures Taken(c, Tool(f)).toolBlock == c.toolBlock[f.index := c.nextIndex]
  {
  }

  lemma {:induction false} PhasedPiecesAgree(c: Conv, items: seq<Item>)
    requires Fresh(c) && NonEmpty(items) && Phased(items)
    ensures Agrees(TakenAll(c, items), BlocksOf(c, items), items)
  {
    if items != [] {
      var before, last := items[..|items| - 1], items[|items| - 1];
      assert before + [last] == items;
      PhasedOneMore(before, last);
      PhasedPiecesAgree(c, before);
      PiecesAreConserved(c, before);
      GrownAgrees(TakenAll(c, before), BlocksOf(c, before), before, last);
    }
  }

  lemma AgreementIsEquality(c: Conv, items: seq<Item>)
    requires Fresh(c) && NonEmpty(items) && Phased(items)
    ensures BlocksOf(c, items) == ContentOf(Streamed(items))
  {
    PhasedPiecesAgree(c, items);
    PiecesAreConserved(c, items);
    OrderIsSeen(items);
    var t, blocks, order := TakenAll(c, items), BlocksOf(c, items), CallOrder(items);
    var lead := LeadBlocks(Reasonings(items), Contents(items));
    forall i | |lead| <= i < |blocks| ensures blocks[i] == ContentOf(Streamed(items))[i] {
      assert order[i - |lead|] in t.toolBlock;
    }
  }

  // Out of phase, the stream's blocks are out of order, and the non-streaming ones never are.

  function KindRank(kind: BlockKind): nat {
    match kind
    case Thinking => 0
    case Text => 1
    case ToolUse(_, _) => 2
  }

  ghost predicate KindsSorted(blocks: seq<Block>) {
    forall i, j :: 0 <= i < j < |blocks| ==> KindRank(blocks[i].kind) <= KindRank(blocks[j].kind)
  }

  lemma ContentIsSorted(m: Message)
    ensures KindsSorted(ContentOf(m))
  {
  }

  /** Blocks keep their kinds, and a piece opens at most one more block, of the piece's own rank. */
  lemma GrownKinds(c: Conv, blocks: seq<Block>, item: Item)
    requires Describes(c, blocks)
    ensures var grown := Grown(c, blocks, item);
      && (forall i :: 0 <= i < |blocks| && i < |grown| ==> grown[i].kind == blocks[i].kind)
      && |blocks| <= |grown| <= |blocks| + 1
      && (|grown| == |blocks| + 1 ==> !item.Finish? && KindRank(grown[|blocks|].kind) == Rank(item))
      && (|grown| == |blocks| && !item.Finish? && !item.Tool? ==>
            blocks != [] && KindRank(blocks[|blocks| - 1].kind) == Rank(item))
      && (|grown| == |blocks| && item.Tool? ==> item.fragment.index in c.toolBlock)
  {
  }

  lemma {:induction false} SeenHasRankTwo(k: int, items: seq<Item>)
    requires Seen(k, items)
    ensures Peak(items) == 2
  {
    PeakAtMostTwo(items);
    if !IsTool(k, items[|items| - 1]) {
      SeenHasRankTwo(k, items[..|items| - 1]);
    }
  }

  lemma {:induction false} PeakAtMostTwo(items: seq<Item>)
    ensures Peak(items) <= 2
  {
    if items != [] {
      PeakAtMostTwo(items[..|items| - 1]);
    }
  }

  /** The kinds are in order exactly when the pieces are in phase, and then the last block is of the highest rank so
      far. */
  ghost predicate TracksPhase(blocks: seq<Block>, items: seq<Item>) {
    && (KindsSorted(blocks) <==> Phased(items))
    && (Phased(items) && blocks != [] ==> KindRank(blocks[|blocks| - 1].kind) == Peak(items))
    && (blocks == [] ==> Peak(items) == 0)
  }

  lemma GrownTracksPhase(c: Conv, blocks: seq<Block>, items: seq<Item>, item: Item)
    requires Describes(c, blocks) && Conserves(c, blocks, items) && TracksPhase(blocks, items)
    ensures TracksPhase(Grown(c, blocks, item), items + [item])
  {
    var grown := Grown(c, blocks, item);
    GrownKinds(c, blocks, item);
    if |grown| == |blocks| {
      if item.Tool? {
        SeenHasRankTwo(item.fragment.index, items);
      }
      TracksPhaseSame(blocks, grown, items, item);
    } else {
      TracksPhaseMore(blocks, grown, items, item);
    }
  }

  lemma TracksPhaseSame(blocks: seq<Block>, grown: seq<Block>, items: seq<Item>, item: Item)
    requires TracksPhase(blocks, items) && |grown| == |blocks|
             && forall i :: 0 <= i < |blocks| ==> grown[i].kind == blocks[i].kind
    requires item.Tool? ==> blocks != [] && Peak(items) == 2
    requires !item.Finish? && !item.Tool? ==> blocks != [] && KindRank(blocks[|blocks| - 1].kind) == Rank(item)
    ensures TracksPhase(grown, items + [item])
  {
    assert (items + [item])[..|items|] == items;
    PhasedOneMore(items, item);
    PeakAtMostTwo(items);
    SameKindsSorted(blocks, grown);
  }

  lemma TracksPhaseMore(blocks: seq<Block>, grown: seq<Block>, items: seq<Item>, item: Item)
    requires TracksPhase(blocks, items) && |grown| == |blocks| + 1
             && forall i :: 0 <= i < |blocks| ==> grown[i].kind == blocks[i].kind
    requires !item.Finish? && KindRank(grown[|blocks|].kind) == Rank(item)
    ensures TracksPhase(grown, items + [item])
  {
    assert (items + [item])[..|items|] == items;
    PhasedOneMore(items, item);
    PeakAtMostTwo(items);
    SortedOneMore(blocks, grown);
  }

  lemma SameKindsSorted(blocks: seq<Block>, grown: seq<Block>)
    requires |grown| == |blocks| && forall i :: 0 <= i < |blocks| ==> grown[i].kind == blocks[i].kind
    ensures KindsSorted(grown) <==> KindsSorted(blocks)
  {
  }

  lemma SortedOneMore(blocks: seq<Block>, grown: seq<Block>)
    requires |grown| == |blocks| + 1 && forall i :: 0 <= i < |blocks| ==> grown[i].kind == blocks[i].kind
    ensures KindsSorted(grown) <==>
      KindsSorted(blocks) && (blocks == [] || KindRank(blocks[|blocks| - 1].kind) <= KindRank(grown[|blocks|].kind))
  {
    if KindsSorted(grown) {
      forall i, j | 0 <= i < j < |blocks| ensures KindRank(blocks[i].kind) <= KindRank(blocks[j].kind) {
        assert KindRank(grown[i].kind) <= KindRank(grown[j].kind);
      }
    }
  }

  lemma {:induction false} PiecesTrackPhase(c: Conv, items: seq<Item>)
    requires Fresh(c)
    ensures TracksPhase(BlocksOf(c, items), items)
  {
    if items != [] {
      var before, last := items[..|items| - 1], items[|items| - 1];
      assert before + [last] == items;
      PiecesTrackPhase(c, before);
      PiecesAreConserved(c, before);
      GrownTracksPhase(TakenAll(c, before), BlocksOf(c, before), before, last);
    }
  }

  // ---------------------------------------------------------------- agreement of the stop reason

  /** A finish reason that arrives with or after the first tool call. */
  predicate FinishAfterTool(items: seq<Item>) {
    items != [] &&
    if items[|items| - 1].Finish? then AnyTool(items[..|items| - 1]) else FinishAfterTool(items[..|items| - 1])
  }

  lemma {:induction false} ToolsOfPieces(c: Conv, items: seq<Item>)
    requires Fresh(c)
    ensures TakenAll(c, items).toolBlock != map[] <==> AnyTool(items)
  {
    if items != [] {
      var before, last := items[..|items| - 1], items[|items| - 1];
      ToolsOfPieces(c, before);
      if last.Tool? {
        assert last.fragment.index in Taken(TakenAll(c, before), last).toolBlock;
      }
    }
  }

  lemma {:induction false} StopReasonOfPieces(c: Conv, items: seq<Item>)
    requires Fresh(c)
    ensures TakenAll(c, items).stopReason == StopReasonFromFinish(LastFinish(items), FinishAfterTool(items))
  {
    if items != [] {
      StopReasonOfPieces(c, items[..|items| - 1]);
      ToolsOfPieces(c, items[..|items| - 1]);
    }
  }

  lemma {:induction false} OrderIsEmptyIff(items: seq<Item>)
    ensures AnyTool(items) <==> CallOrder(items) != []
  {
    if items != [] {
      OrderIsEmptyIff(items[..|items| - 1]);
      OrderIsSeen(items);
      if items[|items| - 1].Tool? {
        assert Seen(items[|items| - 1].fragment.index, items);
      }
    }
  }

  // ---------------------------------------------------------------- interleaved tool calls

  /** The tool call whose block is open: the one whose first fragment came last, if no reasoning or text followed it. */
  function CurrentCall(items: seq<Item>): Option<int> {
    if items == [] then None else
      var before, last := items[..|items| - 1], items[|items| - 1];
      match last
      case Tool(f) => if Seen(f.index, before) then CurrentCall(before) else Some(f.index)
      case Finish(_) => CurrentCall(before)
      case _ => None
  }

  /** Every argument fragment of a tool call comes while that call is the current one. */
  ghost predicate Contiguous(items: seq<Item>) {
    forall k :: 0 <= k < |items| ==> InCurrentCall(items[..k], items[k])
  }

  /** Whether a piece that follows `before` is no late argument fragment. */
  predicate InCurrentCall(before: seq<Item>, item: Item) {
    if item.Tool? && item.fragment.arguments != "" && Seen(item.fragment.index, before)
    then CurrentCall(before) == Some(item.fragment.index) else true
  }

  /** Every JSON delta targets the block that is open when it comes. */
  ghost predicate TargetsOpenBlocks(events: seq<Event>) {
    forall k {:trigger events[k]} :: 0 <= k < |events| && events[k].JsonDelta? ==>
      OpenIs(ReadAll(events[..k]), events[k].index)
  }

  lemma TargetsOneMore(events: seq<Event>, e: Event)
    ensures TargetsOpenBlocks(events + [e])
       <==> TargetsOpenBlocks(events) && (e.JsonDelta? ==> OpenIs(ReadAll(events), e.index))
  {
    var all := events + [e];
    assert all[..|events|] == events;
    assert forall k :: 0 <= k < |events| ==> all[k] == events[k] && all[..k] == events[..k];
    if TargetsOpenBlocks(all) {
      assert all[|events|] == e;
      forall k | 0 <= k < |events| && events[k].JsonDelta? ensures OpenIs(ReadAll(events[..k]), events[k].index) {
        assert all[k] == events[k];
      }
    }
  }

  lemma ContiguousOneMore(items: seq<Item>, item: Item)
    ensures Contiguous(items + [item]) <==> Contiguous(items) && InCurrentCall(items, item)
  {
    var all := items + [item];
    assert all[..|items|] == items;
    assert forall k :: 0 <= k < |items| ==> all[k] == items[k] && all[..k] == items[..k];
    if Contiguous(all) {
      assert all[|items|] == item && InCurrentCall(all[..|items|], all[|items|]);
      forall k | 0 <= k < |items| ensures InCurrentCall(items[..k], items[k]) {
        assert all[k] == items[k];
      }
    }
  }

  /** The current call is the one whose block is open. */
  ghost predicate CurrentIsOpen(c: Conv, items: seq<Item>) {
    forall k :: k in c.toolBlock ==> (CurrentCall(items) == Some(k) <==> c.blockOpen && c.toolBlock[k] == c.curIndex)
  }

  lemma TakenKeepsCurrent(c: Conv, blocks: seq<Block>, items: seq<Item>, item: Item)
    requires Describes(c, blocks) && Conserves(c, blocks, items) && CurrentIsOpen(c, items)
    ensures CurrentIsOpen(Taken(c, item), items + [item])
  {
    assert (items + [item])[..|items|] == items;
    if item.Tool? {
      assert item.fragment.index in c.toolBlock <==> Seen(item.fragment.index, items);
    }
  }

  lemma TakenTargets(c: Conv, blocks: seq<Block>, items: seq<Item>, item: Item)
    requires Describes(c, blocks) && ReadAll(c.out) == InMessage(OpenOf(c), blocks)
    requires Conserves(c, blocks, items) && CurrentIsOpen(c, items)
    requires TargetsOpenBlocks(c.out) <==> Contiguous(items)
    ensures TargetsOpenBlocks(Taken(c, item).out) <==> Contiguous(items + [item])
  {
    ContiguousOneMore(items, item);
    match item
    case Reasoning(s) => OtherDeltaTargets(c, Thinking, ThinkingDelta(Ensured(c, Thinking).curIndex, s));
    case Content(s) => OtherDeltaTargets(c, Text, TextDelta(Ensured(c, Text).curIndex, s));
    case Tool(f) =>
      assert f.index in c.toolBlock <==> Seen(f.index, items);
      if f.index in c.toolBlock {
        TargetsOneMore(c.out, JsonDelta(c.toolBlock[f.index], f.arguments));
      } else {
        var o := Opened(Closed(c), ToolUse(f.id, f.name));
        OpenedIsRead(c, blocks, ToolUse(f.id, f.name));
        OpeningTargets(c, ToolUse(f.id, f.name));
        TargetsOneMore(o.out, JsonDelta(o.curIndex, f.arguments));
      }
    case Finish(_) =>
  }

  lemma OpeningTargets(c: Conv, kind: BlockKind)
    ensures TargetsOpenBlocks(Opened(Closed(c), kind).out) <==> TargetsOpenBlocks(c.out)
  {
    TargetsOneMore(c.out, BlockStop(c.curIndex));
    TargetsOneMore(Closed(c).out, BlockStart(c.nextIndex, kind));
  }

  lemma OtherDeltaTargets(c: Conv, kind: BlockKind, e: Event)
    requires !e.JsonDelta?
    ensures TargetsOpenBlocks(Emit(Ensured(c, kind), e).out) <==> TargetsOpenBlocks(c.out)
  {
    OpeningTargets(c, kind);
    TargetsOneMore(Ensured(c, kind).out, e);
  }

  lemma {:induction false} PiecesTarget(c: Conv, items: seq<Item>)
    requires Fresh(c) && TargetsOpenBlocks(c.out)
    ensures CurrentIsOpen(TakenAll(c, items), items)
    ensures TargetsOpenBlocks(TakenAll(c, items).out) <==> Contiguous(items)
  {
    if items != [] {
      var before, last := items[..|items| - 1], items[|items| - 1];
      assert before + [last] == items;
      PiecesTarget(c, before);
      PiecesAreRead(c, before);
      PiecesAreConserved(c, before);
      TakenKeepsCurrent(TakenAll(c, before), BlocksOf(c, before), before, last);
      TakenTargets(TakenAll(c, before), BlocksOf(c, before), before, last);
    }
  }

  /** JSON deltas stay within the open block exactly when no tool call's arguments resume after another block has begun:
      interleaved calls are sent to blocks that have already stopped. */
  lemma JsonDeltasTargetOpenBlocksIff(model: string, chunks: seq<Chunk>)
    ensures TargetsOpenBlocks(Finalized(Fed(model, chunks), model).out) <==> Contiguous(AllItems(chunks))
  {
    var b := Begun(model, chunks);
    BegunIsFresh(model, chunks);
    assert b.out == [] + b.out;
    PiecesTarget(b, AllItems(chunks));
    if chunks != [] {
      FedIsTaken(model, chunks);
    }
    var c := if chunks == [] then b else Fed(model, chunks);
    assert Finalized(c, model) == Finalized(Fed(model, chunks), model);
    assert c.out == TakenAll(b, AllItems(chunks)).out;
    PiecesAreRead(b, AllItems(chunks));
    TargetsOneMore(c.out, BlockStop(c.curIndex));
    var closed := Closed(c.(finalized := true)).out;
    TargetsOneMore(closed, MessageDelta(StopOf(c.stopReason), Payload(c.usage)));
    TargetsOneMore(closed + [MessageDelta(StopOf(c.stopReason), Payload(c.usage))], MessageStop);
  }
}
