/** The chat-chunk to Anthropic event converter (internal/anthropicapi/stream.go), at the level of parsed
    chunks and emitted events. */
module StreamConverter {
  import opened Wrappers
  import Strings

  // ---------------------------------------------------------------- what comes in

  datatype ToolFragment = ToolFragment(index: int, id: string, name: string, arguments: string)

  datatype Choice = Choice(reasoning: string, content: string, toolCalls: seq<ToolFragment>, finish: string)

  datatype Usage = Usage(prompt: int, completion: int, cacheCreation: int, cacheRead: int, cachedTokens: Option<int>)

  datatype Chunk = Chunk(id: string, model: string, choices: seq<Choice>, usage: Option<Usage>)

  /** One line of the stream: the terminal sentinel, a chunk, or anything the converter skips. */
  datatype Line = Noise | Done | Data(chunk: Chunk)

  // ---------------------------------------------------------------- what goes out

  datatype BlockKind = Thinking | Text | ToolUse(id: string, name: string)

  datatype UsagePayload = UsagePayload(output: int, input: Option<int>, cacheRead: Option<int>,
    cacheCreation: Option<int>)

  datatype Event =
    | MessageStart(id: string, model: string)
    | BlockStart(index: nat, kind: BlockKind)
    | ThinkingDelta(index: nat, thinking: string)
    | TextDelta(index: nat, text: string)
    | JsonDelta(index: nat, json: string)
    | BlockStop(index: nat)
    | MessageDelta(stopReason: string, usage: UsagePayload)
    | MessageStop

  // ---------------------------------------------------------------- pure helpers

  const END_TURN := "end_turn"
  const TOOL_USE := "tool_use"

  /** normalizeMessageID. */
  function NormalizeMessageId(id: string): string {
    var trimmed := Strings.Trim(id);
    if trimmed == "" then "" else if "msg_" <= trimmed then trimmed else "msg_" + trimmed
  }

  /** stopReasonFromFinish. */
  function StopReasonFromFinish(finish: string, hasToolCalls: bool): string {
    if hasToolCalls then TOOL_USE
    else if finish == "stop" then END_TURN
    else if finish == "length" then "max_tokens"
    else if finish == "tool_calls" then TOOL_USE
    else if finish == "content_filter" then END_TURN
    else finish
  }

  function Payload(u: Usage): UsagePayload {
    var read := if u.cacheRead > 0 then u.cacheRead else if u.cachedTokens.Some? then u.cachedTokens.value else 0;
    UsagePayload(
      u.completion,
      if u.prompt > 0 then Some(u.prompt) else None,
      if read > 0 then Some(read) else None,
      if u.cacheCreation > 0 then Some(u.cacheCreation) else None)
  }

  // ---------------------------------------------------------------- the converter as a function

  /** The converter's fields, with everything it has emitted so far. */
  datatype Conv = Conv(
    started: bool,
    blockOpen: bool,
    blockKind: BlockKind,
    curIndex: nat,
    nextIndex: nat,
    toolBlock: map<int, nat>,
    stopReason: string,
    usage: Usage,
    finalized: bool,
    out: seq<Event>
  )

  const NO_USAGE := Usage(0, 0, 0, 0, None)

  const NEW_CONV := Conv(false, false, Text, 0, 0, map[], "", NO_USAGE, false, [])

  /** What a chunk carries, piece by piece, in the order the converter takes it. */
  datatype Item =
    | Reasoning(reasoning: string)
    | Content(content: string)
    | Tool(fragment: ToolFragment)
    | Finish(finish: string)

  function Emit(c: Conv, e: Event): Conv {
    c.(out := c.out + [e])
  }

  function Opened(c: Conv, kind: BlockKind): Conv {
    Emit(c.(curIndex := c.nextIndex, nextIndex := c.nextIndex + 1, blockOpen := true, blockKind := kind),
         BlockStart(c.nextIndex, kind))
  }

  function Closed(c: Conv): Conv {
    if c.blockOpen then Emit(c.(blockOpen := false), BlockStop(c.curIndex)) else c
  }

  function Ensured(c: Conv, kind: BlockKind): Conv {
    if c.blockOpen && c.blockKind == kind then c else Opened(Closed(c), kind)
  }

  function Started(c: Conv, defaultModel: string, id: string, model: string): Conv {
    if c.started then c else
      Emit(c.(started := true),
           MessageStart(if NormalizeMessageId(id) == "" then "msg_stream" else NormalizeMessageId(id),
                        if model == "" then defaultModel else model))
  }

  function ToolTaken(c: Conv, f: ToolFragment): Conv {
    if f.index in c.toolBlock then
      if f.arguments == "" then c else Emit(c, JsonDelta(c.toolBlock[f.index], f.arguments))
    else
      var started := Opened(Closed(c), ToolUse(f.id, f.name));
      var noted := started.(toolBlock := started.toolBlock[f.index := started.curIndex]);
      if f.arguments == "" then noted else Emit(noted, JsonDelta(noted.curIndex, f.arguments))
  }

  function Taken(c: Conv, item: Item): Conv {
    match item
    case Reasoning(s) => var e := Ensured(c, Thinking); Emit(e, ThinkingDelta(e.curIndex, s))
    case Content(s) => var e := Ensured(c, Text); Emit(e, TextDelta(e.curIndex, s))
    case Tool(f) => ToolTaken(c, f)
    case Finish(f) => c.(stopReason := StopReasonFromFinish(f, |c.toolBlock| > 0))
  }

  function TakenAll(c: Conv, items: seq<Item>): Conv {
    if items == [] then c else Taken(TakenAll(c, items[..|items| - 1]), items[|items| - 1])
  }

  function ToolItems(calls: seq<ToolFragment>): seq<Item> {
    seq(|calls|, i requires 0 <= i < |calls| => Tool(calls[i]))
  }

  /** The deltas of a choice: empty strings carry nothing. */
  function DeltaItems(choice: Choice): seq<Item> {
    (if choice.reasoning != "" then [Reasoning(choice.reasoning)] else []) +
    (if choice.content != "" then [Content(choice.content)] else [])
  }

  function FinishItems(choice: Choice): seq<Item> {
    if choice.finish != "" then [Finish(choice.finish)] else []
  }

  function ItemsOf(choice: Choice): seq<Item> {
    DeltaItems(choice) + ToolItems(choice.toolCalls) + FinishItems(choice)
  }

  function ChoiceItems(choices: seq<Choice>): seq<Item> {
    if choices == [] then [] else
      var last := choices[|choices| - 1];
      ChoiceItems(choices[..|choices| - 1]) + ItemsOf(last)
  }

  function ChunkBegun(c: Conv, defaultModel: string, chunk: Chunk): Conv {
    var s := Started(c, defaultModel, chunk.id, chunk.model);
    if chunk.usage.Some? then s.(usage := chunk.usage.value) else s
  }

  function ChunkTaken(c: Conv, defaultModel: string, chunk: Chunk): Conv {
    TakenAll(ChunkBegun(c, defaultModel, chunk), ChoiceItems(chunk.choices))
  }

  function Fed(defaultModel: string, chunks: seq<Chunk>): Conv {
    if chunks == [] then NEW_CONV
    else ChunkTaken(Fed(defaultModel, chunks[..|chunks| - 1]), defaultModel, chunks[|chunks| - 1])
  }

  function Finalized(c: Conv, defaultModel: string): Conv {
    if c.finalized then c else
      var s := Closed(Started(c.(finalized := true), defaultModel, "", ""));
      Emit(Emit(s, MessageDelta(if s.stopReason == "" then END_TURN else s.stopReason, Payload(s.usage))), MessageStop)
  }

  /** The chunks that count: those before the sentinel. */
  function ChunksOf(lines: seq<Line>): seq<Chunk> {
    if lines == [] then []
    else match lines[0]
      case Noise => ChunksOf(lines[1..])
      case Done => []
      case Data(chunk) => [chunk] + ChunksOf(lines[1..])
  }

  lemma TakenOneMore(c: Conv, items: seq<Item>, item: Item)
    ensures TakenAll(c, items + [item]) == Taken(TakenAll(c, items), item)
  {
    assert (items + [item])[..|items|] == items;
  }

  lemma FedOneMore(defaultModel: string, chunks: seq<Chunk>, chunk: Chunk)
    ensures Fed(defaultModel, chunks + [chunk]) == ChunkTaken(Fed(defaultModel, chunks), defaultModel, chunk)
  {
    assert (chunks + [chunk])[..|chunks|] == chunks;
  }

  lemma {:induction false} TakenConcat(c: Conv, a: seq<Item>, b: seq<Item>)
    ensures TakenAll(c, a + b) == TakenAll(TakenAll(c, a), b)
    decreases |b|
  {
    if b == [] {
      assert a + b == a;
    } else {
      TakenConcat(c, a, b[..|b| - 1]);
      assert (a + b)[..|a + b| - 1] == a + b[..|b| - 1];
    }
  }

  lemma TakenOne(c: Conv, item: Item)
    ensures TakenAll(c, [item]) == Taken(c, item)
  {
    TakenOneMore(c, [], item);
    assert [] + [item] == [item];
  }

  lemma TakenDeltas(c: Conv, choice: Choice)
    ensures TakenAll(c, DeltaItems(choice)) ==
      var c1 := if choice.reasoning != "" then Taken(c, Reasoning(choice.reasoning)) else c;
      if choice.content != "" then Taken(c1, Content(choice.content)) else c1
  {
    var r := if choice.reasoning != "" then [Reasoning(choice.reasoning)] else [];
    var t := if choice.content != "" then [Content(choice.content)] else [];
    TakenConcat(c, r, t);
    TakenOne(c, Reasoning(choice.reasoning));
    TakenOne(TakenAll(c, r), Content(choice.content));
  }

  // ---------------------------------------------------------------- the converter

  datatype ReadStatus = More | EndOfStream | Failed

  class Converter {
    const model: string
    const fails: bool             // the upstream ends in an error instead of an end of file
    var lines: seq<Line>          // what the upstream still has to send
    var started: bool
    var blockOpen: bool
    var blockKind: BlockKind
    var curIndex: nat
    var nextIndex: nat
    var toolBlock: map<int, nat>
    var stopReason: string
    var usage: Usage
    var finalized: bool
    var buffer: seq<Event>
    ghost const source: seq<Line>
    ghost var position: nat
    ghost var seen: seq<Chunk>
    ghost var delivered: seq<Event>

    /** The fields, with what was emitted: what the reader already has and what is buffered. */
    ghost function Fields(): Conv
      reads this
    {
      Conv(started, blockOpen, blockKind, curIndex, nextIndex, toolBlock, stopReason, usage, finalized,
           delivered + buffer)
    }

    ghost predicate Valid()
      reads this
    {
      if finalized then
        && Fields() == Finalized(Fed(model, ChunksOf(source)), model)
        && (fails ==> Done in source)
      else
        && Fields() == Fed(model, seen)
        && position <= |source| && lines == source[position..] && Done !in source[..position]
        && seen + ChunksOf(lines) == ChunksOf(source)
    }

    constructor (model: string, lines: seq<Line>, fails: bool)
      ensures Valid() && this.model == model && this.fails == fails && source == lines && this.lines == lines
      ensures delivered == [] && buffer == [] && !finalized
    {
      this.model, this.fails, this.lines, this.source := model, fails, lines, lines;
      started, blockOpen, blockKind, curIndex, nextIndex := false, false, Text, 0, 0;
      toolBlock, stopReason, usage, finalized, buffer := map[], "", NO_USAGE, false, [];
      position, seen, delivered := 0, [], [];
    }

    method EmitEvent(e: Event)
      modifies `buffer
      ensures Fields() == Emit(old(Fields()), e) && buffer == old(buffer) + [e]
    {
      buffer := buffer + [e];
      assert delivered + buffer == old(delivered + buffer) + [e];
    }

    method OpenBlock(kind: BlockKind)
      modifies `buffer, `curIndex, `nextIndex, `blockOpen, `blockKind
      ensures Fields() == Opened(old(Fields()), kind)
    {
      curIndex := nextIndex;
      nextIndex := nextIndex + 1;
      blockOpen := true;
      blockKind := kind;
      EmitEvent(BlockStart(curIndex, kind));
    }

    method CloseBlock()
      modifies `buffer, `blockOpen
      ensures Fields() == Closed(old(Fields()))
    {
      if !blockOpen {
        return;
      }
      blockOpen := false;
      EmitEvent(BlockStop(curIndex));
    }

    method EnsureBlock(kind: BlockKind)
      modifies `buffer, `curIndex, `nextIndex, `blockOpen, `blockKind
      ensures Fields() == Ensured(old(Fields()), kind)
    {
      if blockOpen && blockKind == kind {
        return;
      }
      CloseBlock();
      OpenBlock(kind);
    }

    method EnsureStarted(id: string, model: string)
      modifies `buffer, `started
      ensures Fields() == Started(old(Fields()), this.model, id, model)
    {
      if started {
        return;
      }
      started := true;
      var msgId := NormalizeMessageId(id);
      if msgId == "" {
        msgId := "msg_stream";
      }
      EmitEvent(MessageStart(msgId, if model == "" then this.model else model));
    }

    method HandleToolCall(f: ToolFragment)
      modifies `buffer, `curIndex, `nextIndex, `blockOpen, `blockKind, `toolBlock
      ensures Fields() == ToolTaken(old(Fields()), f)
    {
      var index;
      if f.index in toolBlock {
        index := toolBlock[f.index];
      } else {
        CloseBlock();
        OpenBlock(ToolUse(f.id, f.name));
        toolBlock := toolBlock[f.index := curIndex];
        index := curIndex;
      }
      if f.arguments == "" {
        return;
      }
      EmitEvent(JsonDelta(index, f.arguments));
    }

    method HandleDeltas(choice: Choice)
      modifies `buffer, `curIndex, `nextIndex, `blockOpen, `blockKind
      ensures Fields() == TakenAll(old(Fields()), DeltaItems(choice))
    {
      TakenDeltas(Fields(), choice);
      if choice.reasoning != "" {
        EnsureBlock(Thinking);
        EmitEvent(ThinkingDelta(curIndex, choice.reasoning));
      }
      if choice.content != "" {
        EnsureBlock(Text);
        EmitEvent(TextDelta(curIndex, choice.content));
      }
    }

    method HandleToolCalls(calls: seq<ToolFragment>)
      modifies `buffer, `curIndex, `nextIndex, `blockOpen, `blockKind, `toolBlock
      ensures Fields() == TakenAll(old(Fields()), ToolItems(calls))
    {
      ghost var before := Fields();
      for j := 0 to |calls|
        invariant Fields() == TakenAll(before, ToolItems(calls[..j]))
      {
        HandleToolCall(calls[j]);
        TakenOneMore(before, ToolItems(calls[..j]), Tool(calls[j]));
        assert ToolItems(calls[..j + 1]) == ToolItems(calls[..j]) + [Tool(calls[j])];
      }
      assert calls[..|calls|] == calls;
    }

    method HandleChoice(choice: Choice)
      modifies `buffer, `curIndex, `nextIndex, `blockOpen, `blockKind, `toolBlock, `stopReason
      ensures Fields() == TakenAll(old(Fields()), ItemsOf(choice))
    {
      ghost var before := Fields();
      HandleDeltas(choice);
      HandleToolCalls(choice.toolCalls);
      TakenConcat(before, DeltaItems(choice), ToolItems(choice.toolCalls));
      ghost var after := Fields();
      if choice.finish != "" {
        stopReason := StopReasonFromFinish(choice.finish, |toolBlock| > 0);
        TakenOne(after, Finish(choice.finish));
      }
      TakenConcat(before, DeltaItems(choice) + ToolItems(choice.toolCalls), FinishItems(choice));
    }

    method HandleChunk(chunk: Chunk)
      modifies `buffer, `curIndex, `nextIndex, `blockOpen, `blockKind, `toolBlock, `started, `usage, `stopReason
      ensures Fields() == ChunkTaken(old(Fields()), model, chunk)
    {
      EnsureStarted(chunk.id, chunk.model);
      if chunk.usage.Some? {
        usage := chunk.usage.value;
      }
      ghost var begun := Fields();
      for i := 0 to |chunk.choices|
        invariant Fields() == TakenAll(begun, ChoiceItems(chunk.choices[..i]))
      {
        HandleChoice(chunk.choices[i]);
        assert chunk.choices[..i + 1][..i] == chunk.choices[..i];
        TakenConcat(begun, ChoiceItems(chunk.choices[..i]), ItemsOf(chunk.choices[i]));
      }
      assert chunk.choices[..|chunk.choices|] == chunk.choices;
    }

    method Finalize()
      modifies `buffer, `started, `blockOpen, `finalized
      ensures Fields() == Finalized(old(Fields()), model)
      ensures |buffer| >= |old(buffer)| && (!old(finalized) ==> buffer != [])
    {
      if finalized {
        return;
      }
      finalized := true;
      EnsureStarted("", "");
      CloseBlock();
      EmitEvent(MessageDelta(if stopReason == "" then END_TURN else stopReason, Payload(usage)));
      EmitEvent(MessageStop);
    }

    /** Hands over at most `room` buffered events. */
    method TakeBuffered(room: nat) returns (got: seq<Event>)
      modifies `buffer, `delivered
      ensures Fields() == old(Fields())
      ensures delivered == old(delivered) + got && got + buffer == old(buffer)
      ensures |got| == if room <= |old(buffer)| then room else |old(buffer)|
    {
      var n := if room <= |buffer| then room else |buffer|;
      got := buffer[..n];
      ghost var whole := delivered + buffer;
      delivered := delivered + got;
      buffer := buffer[n..];
      assert delivered + buffer == whole;
    }

    /** Takes a parsed chunk: it joins the chunks already fed. */
    method ConsumeChunk(chunk: Chunk)
      requires !finalized && Fields() == Fed(model, seen)
      modifies `buffer, `curIndex, `nextIndex, `blockOpen, `blockKind, `toolBlock, `started, `usage, `stopReason, `seen
      ensures seen == old(seen) + [chunk] && Fields() == Fed(model, seen) && !finalized
    {
      HandleChunk(chunk);
      FedOneMore(model, seen, chunk);
      seen := seen + [chunk];
    }

    /** Ends the conversion once every chunk that counts has been fed. */
    method ConsumeDone()
      requires !finalized && Fields() == Fed(model, seen) && seen == ChunksOf(source) && (fails ==> Done in source)
      modifies `buffer, `started, `blockOpen, `finalized
      ensures Valid() && finalized && buffer != []
    {
      Finalize();
    }

    /** What reading the line at `position` leaves of the source. */
    lemma LineLeaves()
      requires position < |source| && lines == source[position..] && Done !in source[..position]
      ensures lines != [] && lines[1..] == source[position + 1..]
      ensures !lines[0].Done? ==> Done !in source[..position + 1]
      ensures lines[0].Done? ==> Done in source && ChunksOf(lines) == []
      ensures lines[0].Noise? ==> ChunksOf(lines) == ChunksOf(lines[1..])
      ensures lines[0].Data? ==> ChunksOf(lines) == [lines[0].chunk] + ChunksOf(lines[1..])
    {
      assert source[..position + 1] == source[..position] + [lines[0]];
    }

    /** Takes the next line; finalizes at the sentinel. */
    method ConsumeLine()
      requires Valid() && !finalized && lines != []
      modifies this
      ensures Valid() && lines == old(lines)[1..] && delivered == old(delivered)
      ensures finalized ==> buffer != []
    {
      LineLeaves();
      var line := lines[0];
      ghost var rest := ChunksOf(lines[1..]);
      lines := lines[1..];
      position := position + 1;
      match line {
        case Noise =>
        case Done =>
          assert seen + [] == seen;
          ConsumeDone();
        case Data(chunk) =>
          assert seen + ([chunk] + rest) == seen + [chunk] + rest;
          ConsumeChunk(chunk);
      }
    }

    /** Ends the conversion at the upstream's end of file. */
    method ConsumeEnd()
      requires Valid() && !finalized && lines == [] && !fails
      modifies this
      ensures Valid() && finalized && buffer != [] && delivered == old(delivered) && lines == []
    {
      assert seen + [] == seen;
      ConsumeDone();
    }

    /** One Read: buffered events first, then as many lines as it takes to have some. */
    method Read(room: nat) returns (got: seq<Event>, status: ReadStatus)
      requires Valid()
      modifies this
      ensures Valid() && delivered == old(delivered) + got
      ensures status.More? && room > 0 ==> got != []
      ensures status.EndOfStream? ==> got == [] && finalized && buffer == []
      ensures status.Failed? ==> got == [] && !finalized && buffer == [] && lines == [] && fails
      ensures |lines| <= |old(lines)| && (old(finalized) ==> finalized)
      ensures status.More? && |lines| == |old(lines)| && finalized == old(finalized) ==>
              |buffer| + |got| == |old(buffer)|
    {
      if |buffer| > 0 {
        got := TakeBuffered(room);
        return got, More;
      }
      if finalized {
        return [], EndOfStream;
      }
      while buffer == []
        invariant Valid() && delivered == old(delivered)
        invariant |lines| <= |old(lines)|
        invariant finalized ==> buffer != []
        invariant buffer != [] ==> |lines| < |old(lines)| || finalized
        decreases |lines|, if finalized then 0 else 1
      {
        if lines == [] {
          if fails {
            return [], Failed;
          }
          ConsumeEnd();
        } else {
          ConsumeLine();
        }
      }
      got := TakeBuffered(room);
      return got, More;
    }
  }

  /** Reading to the end yields the whole conversion of the chunks before the sentinel: finalized once, or cut short
      without its closing events exactly when the upstream fails before the sentinel. */
  method Drain(model: string, lines: seq<Line>, fails: bool, room: nat) returns (events: seq<Event>, failed: bool)
    requires room > 0
    ensures failed <==> fails && Done !in lines
    ensures failed ==> events == Fed(model, ChunksOf(lines)).out
    ensures !failed ==> events == Finalized(Fed(model, ChunksOf(lines)), model).out
  {
    var sc := new Converter(model, lines, fails);
    events := [];
    var status := More;
    while status.More?
      invariant fresh(sc) && sc.Valid() && sc.source == lines && sc.model == model && sc.fails == fails
      invariant sc.delivered == events
      invariant status.EndOfStream? ==> sc.finalized && sc.buffer == []
      invariant status.Failed? ==> !sc.finalized && sc.buffer == [] && sc.lines == [] && sc.fails
      decreases |sc.lines|, if sc.finalized then 0 else 1, |sc.buffer|, status.More?
    {
      var got;
      got, status := sc.Read(room);
      events := events + got;
    }
    failed := status.Failed?;
    DrainEnds(sc, failed);
  }

  lemma DrainEnds(sc: Converter, failed: bool)
    requires sc.Valid() && sc.buffer == []
    requires failed ==> !sc.finalized && sc.lines == [] && sc.fails
    requires !failed ==> sc.finalized
    ensures failed <==> sc.fails && Done !in sc.source
    ensures failed ==> sc.delivered == Fed(sc.model, ChunksOf(sc.source)).out
    ensures !failed ==> sc.delivered == Finalized(Fed(sc.model, ChunksOf(sc.source)), sc.model).out
  {
    assert sc.delivered + [] == sc.delivered;
    if failed {
      assert sc.seen + [] == sc.seen;
      assert sc.source[..sc.position] == sc.source;
    }
  }
}
