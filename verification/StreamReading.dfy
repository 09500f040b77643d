/** What a client of the Anthropic Messages stream reads from an event sequence, and that every conversion reads
    as one well-formed message whose content is what the chunks carried. */
module StreamReading {
  import opened Wrappers
  import opened StreamConverter

  datatype Block = Block(kind: BlockKind, content: string)

  /** How far a message has been read, with the content blocks assembled so far. */
  datatype Reading =
    | Awaiting
    | InMessage(open: Option<nat>, blocks: seq<Block>)
    | Stopped(blocks: seq<Block>, stopReason: string)
    | Complete(blocks: seq<Block>, stopReason: string)
    | Malformed

  predicate OpenIs(r: Reading, index: nat) {
    r.InMessage? && r.open == Some(index) && index < |r.blocks|
  }

  function Extended(blocks: seq<Block>, index: nat, more: string): seq<Block>
    requires index < |blocks|
  {
    blocks[index := blocks[index].(content := blocks[index].content + more)]
  }

  /** The output grammar: one message_start first; block starts numbered 0, 1, 2, ... with at most one block open; text
      and thinking deltas for the open block of their type, JSON deltas for a started tool_use block; stops for the open
      block only; and, with no block open, one message_delta and then one message_stop at the end. */
  function ReadEvent(r: Reading, e: Event): Reading {
    match e
    case MessageStart(_, _) => if r.Awaiting? then InMessage(None, []) else Malformed
    case BlockStart(i, kind) =>
      if r.InMessage? && r.open.None? && i == |r.blocks|
      then InMessage(Some(i), r.blocks + [Block(kind, "")]) else Malformed
    case ThinkingDelta(i, s) =>
      if OpenIs(r, i) && r.blocks[i].kind.Thinking? then InMessage(r.open, Extended(r.blocks, i, s)) else Malformed
    case TextDelta(i, s) =>
      if OpenIs(r, i) && r.blocks[i].kind.Text? then InMessage(r.open, Extended(r.blocks, i, s)) else Malformed
    case JsonDelta(i, s) =>
      if r.InMessage? && i < |r.blocks| && r.blocks[i].kind.ToolUse?
      then InMessage(r.open, Extended(r.blocks, i, s)) else Malformed
    case BlockStop(i) => if OpenIs(r, i) then InMessage(None, r.blocks) else Malformed
    case MessageDelta(stop, _) => if r.InMessage? && r.open.None? then Stopped(r.blocks, stop) else Malformed
    case MessageStop => if r.Stopped? then Complete(r.blocks, r.stopReason) else Malformed
  }

  function ReadAll(events: seq<Event>): Reading {
    if events == [] then Awaiting else ReadEvent(ReadAll(events[..|events| - 1]), events[|events| - 1])
  }

  lemma ReadOneMore(events: seq<Event>, e: Event)
    ensures ReadAll(events + [e]) == ReadEvent(ReadAll(events), e)
  {
    assert (events + [e])[..|events|] == events;
  }

  // ---------------------------------------------------------------- what the grammar says about counts

  function Count(p: Event -> bool, events: seq<Event>): nat {
    if events == [] then 0 else Count(p, events[..|events| - 1]) + if p(events[|events| - 1]) then 1 else 0
  }

  predicate IsMessageStart(e: Event) { e.MessageStart? }
  predicate IsMessageDelta(e: Event) { e.MessageDelta? }
  predicate IsMessageStop(e: Event) { e.MessageStop? }

  function Starts(i: nat, e: Event): nat {
    if e.BlockStart? && e.index == i then 1 else 0
  }

  function Stops(i: nat, e: Event): nat {
    if e == BlockStop(i) then 1 else 0
  }

  function StartsOf(i: nat, events: seq<Event>): nat {
    if events == [] then 0 else StartsOf(i, events[..|events| - 1]) + Starts(i, events[|events| - 1])
  }

  function StopsOf(i: nat, events: seq<Event>): nat {
    if events == [] then 0 else StopsOf(i, events[..|events| - 1]) + Stops(i, events[|events| - 1])
  }

  /** How often the block `i` has started and stopped by the time the events read so far. */
  ghost predicate Balanced(r: Reading, starts: nat, stops: nat, i: nat) {
    && (r.Awaiting? ==> starts == stops == 0)
    && (r.InMessage? && r.open.Some? ==> r.open.value + 1 == |r.blocks|)
    && (r.InMessage? ==> starts == (if i < |r.blocks| then 1 else 0))
    && (r.InMessage? ==> stops == (if i < |r.blocks| && r.open != Some(i) then 1 else 0))
    && (r.Stopped? || r.Complete? ==> starts == stops == (if i < |r.blocks| then 1 else 0))
  }

  lemma BalanceKept(r: Reading, e: Event, starts: nat, stops: nat, i: nat)
    requires Balanced(r, starts, stops, i)
    ensures Balanced(ReadEvent(r, e), starts + Starts(i, e), stops + Stops(i, e), i)
  {
  }

  /** In a message that reads to its end, every block starts once and stops once, and no other index occurs. */
  lemma {:induction false} BlocksBalance(events: seq<Event>, i: nat)
    ensures Balanced(ReadAll(events), StartsOf(i, events), StopsOf(i, events), i)
  {
    if events != [] {
      var before, last := events[..|events| - 1], events[|events| - 1];
      BlocksBalance(before, i);
      BalanceKept(ReadAll(before), last, StartsOf(i, before), StopsOf(i, before), i);
    }
  }

  lemma {:induction false} MessageFrame(events: seq<Event>)
    ensures var r := ReadAll(events);
      && (r.Awaiting? ==> events == [])
      && (!r.Awaiting? && !r.Malformed? ==>
          events != [] && events[0].MessageStart? && Count(IsMessageStart, events) == 1)
      && (r.Awaiting? || r.InMessage? ==> Count(IsMessageDelta, events) == 0)
      && (r.Stopped? ==> Count(IsMessageDelta, events) == 1 && events[|events| - 1].MessageDelta?)
      && (r.Awaiting? || r.InMessage? || r.Stopped? ==> Count(IsMessageStop, events) == 0)
      && (r.Complete? ==> Count(IsMessageDelta, events) == Count(IsMessageStop, events) == 1)
      && (r.Complete? ==> |events| >= 2 && events[|events| - 2].MessageDelta? && events[|events| - 1].MessageStop?)
  {
    if events != [] {
      MessageFrame(events[..|events| - 1]);
    }
  }

  // ---------------------------------------------------------------- reading what was emitted

  function OpenOf(c: Conv): Option<nat> {
    if c.blockOpen then Some(c.curIndex) else None
  }

  /** The converter's fields describe the blocks a client has read: the last block is the open one, and every tool
      call seen so far has its own tool_use block. */
  ghost predicate Describes(c: Conv, blocks: seq<Block>) {
    && c.started && !c.finalized
    && c.nextIndex == |blocks|
    && (c.blockOpen <==> blocks != [])
    && (c.blockOpen ==> c.curIndex == |blocks| - 1 && c.blockKind == blocks[c.curIndex].kind)
    && (forall k :: k in c.toolBlock ==> c.toolBlock[k] < |blocks| && blocks[c.toolBlock[k]].kind.ToolUse?)
    && (forall j, k :: j in c.toolBlock && k in c.toolBlock && c.toolBlock[j] == c.toolBlock[k] ==> j == k)
    && (forall i :: 0 <= i < |blocks| && blocks[i].kind.ToolUse? ==>
        exists k :: k in c.toolBlock && c.toolBlock[k] == i)
  }

  /** The blocks after one more piece. */
  function Grown(c: Conv, blocks: seq<Block>, item: Item): seq<Block> {
    match item
    case Reasoning(s) => GrownBy(c, blocks, Thinking, s)
    case Content(s) => GrownBy(c, blocks, Text, s)
    case Tool(f) =>
      if f.index in c.toolBlock then
        if c.toolBlock[f.index] < |blocks| then Extended(blocks, c.toolBlock[f.index], f.arguments) else blocks
      else blocks + [Block(ToolUse(f.id, f.name), f.arguments)]
    case Finish(_) => blocks
  }

  function GrownBy(c: Conv, blocks: seq<Block>, kind: BlockKind, s: string): seq<Block> {
    if c.blockOpen && c.blockKind == kind && c.curIndex < |blocks|
    then Extended(blocks, c.curIndex, s)
    else blocks + [Block(kind, s)]
  }

  lemma OpenedIsRead(c: Conv, blocks: seq<Block>, kind: BlockKind)
    requires Describes(c, blocks) && ReadAll(c.out) == InMessage(OpenOf(c), blocks)
    ensures var e := Opened(Closed(c), kind);
      ReadAll(e.out) == InMessage(OpenOf(e), blocks + [Block(kind, "")]) && e.curIndex == |blocks|
  {
    if c.blockOpen {
      ReadOneMore(c.out, BlockStop(c.curIndex));
    }
    ReadOneMore(Closed(c).out, BlockStart(c.nextIndex, kind));
  }

  lemma DeltaIsRead(c: Conv, blocks: seq<Block>, kind: BlockKind, s: string, delta: Event)
    requires Describes(c, blocks) && ReadAll(c.out) == InMessage(OpenOf(c), blocks)
    requires (kind == Thinking && delta == ThinkingDelta(Ensured(c, kind).curIndex, s)) ||
             (kind == Text && delta == TextDelta(Ensured(c, kind).curIndex, s))
    ensures var t := Emit(Ensured(c, kind), delta);
      ReadAll(t.out) == InMessage(OpenOf(t), GrownBy(c, blocks, kind, s))
  {
    var e := Ensured(c, kind);
    ReadOneMore(e.out, delta);
    if !(c.blockOpen && c.blockKind == kind) {
      OpenedIsRead(c, blocks, kind);
      assert "" + s == s;
      assert Extended(blocks + [Block(kind, "")], |blocks|, s) == blocks + [Block(kind, s)];
    }
  }

  lemma ToolIsRead(c: Conv, blocks: seq<Block>, f: ToolFragment)
    requires Describes(c, blocks) && ReadAll(c.out) == InMessage(OpenOf(c), blocks)
    ensures var t := ToolTaken(c, f); ReadAll(t.out) == InMessage(OpenOf(t), Grown(c, blocks, Tool(f)))
  {
    if f.index in c.toolBlock {
      var i := c.toolBlock[f.index];
      ReadOneMore(c.out, JsonDelta(i, f.arguments));
      assert blocks[i].content + "" == blocks[i].content;
    } else {
      NewToolIsRead(c, blocks, f);
    }
  }

  lemma NewToolIsRead(c: Conv, blocks: seq<Block>, f: ToolFragment)
    requires Describes(c, blocks) && ReadAll(c.out) == InMessage(OpenOf(c), blocks) && f.index !in c.toolBlock
    ensures var t := ToolTaken(c, f);
            ReadAll(t.out) == InMessage(OpenOf(t), blocks + [Block(ToolUse(f.id, f.name), f.arguments)])
  {
    var kind := ToolUse(f.id, f.name);
    var o := Opened(Closed(c), kind);
    OpenedIsRead(c, blocks, kind);
    ReadOneMore(o.out, JsonDelta(o.curIndex, f.arguments));
    assert "" + f.arguments == f.arguments;
    assert Extended(blocks + [Block(kind, "")], |blocks|, f.arguments) == blocks + [Block(kind, f.arguments)];
  }

  lemma TakenIsRead(c: Conv, blocks: seq<Block>, item: Item)
    requires Describes(c, blocks) && ReadAll(c.out) == InMessage(OpenOf(c), blocks)
    ensures var t := Taken(c, item); ReadAll(t.out) == InMessage(OpenOf(t), Grown(c, blocks, item))
  {
    match item
    case Reasoning(s) => DeltaIsRead(c, blocks, Thinking, s, ThinkingDelta(Ensured(c, Thinking).curIndex, s));
    case Content(s) => DeltaIsRead(c, blocks, Text, s, TextDelta(Ensured(c, Text).curIndex, s));
    case Tool(f) => ToolIsRead(c, blocks, f);
    case Finish(_) =>
  }

  lemma TakenDescribes(c: Conv, blocks: seq<Block>, item: Item)
    requires Describes(c, blocks)
    ensures Describes(Taken(c, item), Grown(c, blocks, item))
  {
    match item
    case Reasoning(s) => LeadTakenDescribes(c, blocks, item, Thinking, s);
    case Content(s) => LeadTakenDescribes(c, blocks, item, Text, s);
    case Tool(f) => if f.index !in c.toolBlock { NewToolDescribes(c, blocks, f); }
    case Finish(_) =>
  }

  lemma LeadTakenDescribes(c: Conv, blocks: seq<Block>, item: Item, kind: BlockKind, s: string)
    requires Describes(c, blocks)
             && ((item == Reasoning(s) && kind == Thinking) || (item == Content(s) && kind == Text))
    ensures Describes(Taken(c, item), GrownBy(c, blocks, kind, s))
  {
    var t, grown := Taken(c, item), GrownBy(c, blocks, kind, s);
    assert forall i :: 0 <= i < |blocks| ==> grown[i].kind == blocks[i].kind;
    assert t.toolBlock == c.toolBlock;
  }

  lemma NewToolDescribes(c: Conv, blocks: seq<Block>, f: ToolFragment)
    requires Describes(c, blocks) && f.index !in c.toolBlock
    ensures Describes(Taken(c, Tool(f)), Grown(c, blocks, Tool(f)))
  {
    var t, grown := Taken(c, Tool(f)), Grown(c, blocks, Tool(f));
    assert t.toolBlock == c.toolBlock[f.index := |blocks|];
    forall i | 0 <= i < |grown| && grown[i].kind.ToolUse? ensures exists k :: k in t.toolBlock && t.toolBlock[k] == i {
      if i < |blocks| {
        var k :| k in c.toolBlock && c.toolBlock[k] == i;
        assert k in t.toolBlock && t.toolBlock[k] == i;
      } else {
        assert t.toolBlock[f.index] == i;
      }
    }
  }

  /** A converter that has emitted its message_start and nothing else. */
  ghost predicate Fresh(c: Conv) {
    && c.started && !c.finalized && !c.blockOpen && c.nextIndex == 0 && c.toolBlock == map[] && c.stopReason == ""
    && ReadAll(c.out) == InMessage(None, [])
  }

  /** The blocks a fresh converter's pieces make. */
  function BlocksOf(c: Conv, items: seq<Item>): seq<Block> {
    if items == [] then [] else
      var before := items[..|items| - 1];
      Grown(TakenAll(c, before), BlocksOf(c, before), items[|items| - 1])
  }

  lemma {:induction false} PiecesAreRead(c: Conv, items: seq<Item>)
    requires Fresh(c)
    ensures var t := TakenAll(c, items);
      Describes(t, BlocksOf(c, items)) && ReadAll(t.out) == InMessage(OpenOf(t), BlocksOf(c, items))
  {
    if items != [] {
      var before := items[..|items| - 1];
      PiecesAreRead(c, before);
      TakenDescribes(TakenAll(c, before), BlocksOf(c, before), items[|items| - 1]);
      TakenIsRead(TakenAll(c, before), BlocksOf(c, before), items[|items| - 1]);
    }
  }

  // ---------------------------------------------------------------- from pieces to chunks

  function AllItems(chunks: seq<Chunk>): seq<Item> {
    if chunks == [] then [] else AllItems(chunks[..|chunks| - 1]) + ChoiceItems(chunks[|chunks| - 1].choices)
  }

  function LastUsage(chunks: seq<Chunk>): Usage {
    if chunks == [] then NO_USAGE
    else if chunks[|chunks| - 1].usage.Some? then chunks[|chunks| - 1].usage.value
    else LastUsage(chunks[..|chunks| - 1])
  }

  /** The converter just after the message_start of a conversion. */
  function Begun(model: string, chunks: seq<Chunk>): Conv {
    if chunks == [] then Started(NEW_CONV, model, "", "") else Started(NEW_CONV, model, chunks[0].id, chunks[0].model)
  }

  lemma BegunIsFresh(model: string, chunks: seq<Chunk>)
    ensures Fresh(Begun(model, chunks))
  {
    if chunks == [] {
      StartedIsFresh(model, "", "");
    } else {
      StartedIsFresh(model, chunks[0].id, chunks[0].model);
    }
  }

  lemma StartedIsFresh(defaultModel: string, id: string, model: string)
    ensures Fresh(Started(NEW_CONV, defaultModel, id, model))
  {
    var out := Started(NEW_CONV, defaultModel, id, model).out;
    assert out == [] + [out[0]];
    ReadOneMore([], out[0]);
  }

  lemma UsageIsPassive(c: Conv, u: Usage, item: Item)
    ensures Taken(c.(usage := u), item) == Taken(c, item).(usage := u)
  {
    var d := c.(usage := u);
    assert Closed(d) == Closed(c).(usage := u);
    match item
    case Reasoning(_) => assert Ensured(d, Thinking) == Ensured(c, Thinking).(usage := u);
    case Content(_) => assert Ensured(d, Text) == Ensured(c, Text).(usage := u);
    case Tool(f) => UsageIsPassiveForTools(c, u, f);
    case Finish(_) =>
  }

  lemma UsageIsPassiveForTools(c: Conv, u: Usage, f: ToolFragment)
    ensures ToolTaken(c.(usage := u), f) == ToolTaken(c, f).(usage := u)
  {
    assert Opened(Closed(c.(usage := u)), ToolUse(f.id, f.name)) ==
      Opened(Closed(c), ToolUse(f.id, f.name)).(usage := u);
  }

  lemma {:induction false} UsageIsPassiveAll(c: Conv, u: Usage, items: seq<Item>)
    ensures TakenAll(c.(usage := u), items) == TakenAll(c, items).(usage := u)
  {
    if items != [] {
      UsageIsPassiveAll(c, u, items[..|items| - 1]);
      UsageIsPassive(TakenAll(c, items[..|items| - 1]), u, items[|items| - 1]);
    }
  }

  /** Feeding chunks is taking their pieces, one after another, with the last usage noted on the side. */
  lemma {:induction false} FedIsTaken(model: string, chunks: seq<Chunk>)
    requires chunks != []
    ensures Fed(model, chunks) == TakenAll(Begun(model, chunks), AllItems(chunks)).(usage := LastUsage(chunks))
    ensures Fed(model, chunks).started
  {
    var before, last := chunks[..|chunks| - 1], chunks[|chunks| - 1];
    var items := ChoiceItems(last.choices);
    var b := Begun(model, chunks);
    if before == [] {
      assert AllItems(chunks) == items;
      UsageIsPassiveAll(b, LastUsage(chunks), items);
      assert b.usage == NO_USAGE;
      assert b == b.(usage := NO_USAGE);
    } else {
      FedIsTaken(model, before);
      assert Begun(model, before) == b;
      TakenConcat(b, AllItems(before), items);
      UsageIsPassiveAll(TakenAll(b, AllItems(before)), LastUsage(chunks), items);
    }
    PiecesStart(model, chunks);
  }

  lemma PiecesStart(model: string, chunks: seq<Chunk>)
    ensures TakenAll(Begun(model, chunks), AllItems(chunks)).started
  {
    BegunIsFresh(model, chunks);
    PiecesAreRead(Begun(model, chunks), AllItems(chunks));
  }

  /** The blocks of a whole conversion. */
  function ConversionBlocks(model: string, chunks: seq<Chunk>): seq<Block> {
    BlocksOf(Begun(model, chunks), AllItems(chunks))
  }

  function StopOf(stopReason: string): string {
    if stopReason == "" then END_TURN else stopReason
  }

  lemma ClosedIsRead(c: Conv, blocks: seq<Block>)
    requires Describes(c, blocks) && ReadAll(c.out) == InMessage(OpenOf(c), blocks)
    ensures ReadAll(Closed(c).out) == InMessage(None, blocks)
  {
    if c.blockOpen {
      ReadOneMore(c.out, BlockStop(c.curIndex));
    }
  }

  lemma FinalizedIsRead(c: Conv, model: string, blocks: seq<Block>)
    requires Describes(c, blocks) && ReadAll(c.out) == InMessage(OpenOf(c), blocks)
    ensures ReadAll(Finalized(c, model).out) == Complete(blocks, StopOf(c.stopReason))
  {
    var closed := Closed(c.(finalized := true));
    ClosedIsRead(c, blocks);
    assert closed.out == Closed(c).out;
    EndIsRead(closed.out, blocks, StopOf(c.stopReason), Payload(c.usage));
    assert Finalized(c, model).out ==
      closed.out + [MessageDelta(StopOf(c.stopReason), Payload(c.usage))] + [MessageStop];
  }

  lemma EndIsRead(events: seq<Event>, blocks: seq<Block>, stop: string, usage: UsagePayload)
    requires ReadAll(events) == InMessage(None, blocks)
    ensures ReadAll(events + [MessageDelta(stop, usage)] + [MessageStop]) == Complete(blocks, stop)
  {
    ReadOneMore(events, MessageDelta(stop, usage));
    ReadOneMore(events + [MessageDelta(stop, usage)], MessageStop);
  }

  /** Every completed conversion is one well-formed message, and reads as the blocks of its chunks' pieces. */
  lemma ConversionIsWellFormed(model: string, chunks: seq<Chunk>)
    ensures ReadAll(Finalized(Fed(model, chunks), model).out)
         == Complete(ConversionBlocks(model, chunks), StopOf(Fed(model, chunks).stopReason))
    ensures chunks != [] ==> Describes(Fed(model, chunks), ConversionBlocks(model, chunks))
  {
    var b := Begun(model, chunks);
    BegunIsFresh(model, chunks);
    PiecesAreRead(b, AllItems(chunks));
    if chunks == [] {
      FinalizedIsRead(b, model, []);
      assert Finalized(NEW_CONV, model) == Finalized(b, model);
    } else {
      FedIsTaken(model, chunks);
      var t := TakenAll(b, AllItems(chunks));
      var fed := Fed(model, chunks);
      assert fed == t.(usage := LastUsage(chunks));
      FinalizedIsRead(fed, model, BlocksOf(b, AllItems(chunks)));
    }
  }
}
