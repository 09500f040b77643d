/** What a converted stream (internal/anthropicapi/stream.go) tells a client, by the fields of its chunks: the message's
    name, its content, its stop reason and its usage. */
module StreamFrame {
  import opened Wrappers
  import opened StreamConverter
  import opened StreamReading
  import opened StreamAgreement
  import opened StreamChoices
  import Strings

  // ---------------------------------------------------------------- the content

  /** A client reads the text and reasoning of all choices, joined, and for every tool call a block of its own with the
      arguments of all its fragments, under the id and name of the first. */
  lemma ChunksAreConserved(model: string, chunks: seq<Chunk>)
    ensures var c, all := Fed(model, chunks), AllChoices(chunks);
            var reading := ReadAll(Finalized(c, model).out);
      && reading.Complete?
      && Joined(Thinking, reading.blocks) == ReasoningOf(all) && Joined(Text, reading.blocks) == TextOf(all)
      && (forall k :: k in c.toolBlock <==> Mentions(k, FragmentsOf(all)))
      && (forall k :: k in c.toolBlock ==>
            c.toolBlock[k] < |reading.blocks|
            && reading.blocks[c.toolBlock[k]] ==
               Block(ToolUse(Begins(k, FragmentsOf(all)).0, Begins(k, FragmentsOf(all)).1),
                 ArgumentsOf(k, FragmentsOf(all))))
      && (forall j, k :: j in c.toolBlock && k in c.toolBlock && j != k ==> c.toolBlock[j] != c.toolBlock[k])
  {
    var all := AllChoices(chunks);
    ContentIsConserved(model, chunks);
    AllItemsOfChoices(chunks);
    TextOfChoices(all);
    ToolsOfChoices(all);
    forall k
      ensures Seen(k, AllItems(chunks)) <==> Mentions(k, FragmentsOf(all))
      ensures StreamedCall(k, AllItems(chunks)) == BegunCall(k, FragmentsOf(all))
    {
      SeenIsMentioned(k, AllItems(chunks));
      StreamedIsBegun(k, AllItems(chunks));
    }
  }

  // ---------------------------------------------------------------- the first event

  lemma OpenedAddsEvents(c: Conv, kind: BlockKind)
    ensures c.out <= Opened(Closed(c), kind).out
    ensures Opened(Closed(c), kind).started == c.started && Opened(Closed(c), kind).finalized == c.finalized
  {
  }

  lemma EnsuredAddsEvents(c: Conv, kind: BlockKind)
    ensures c.out <= Ensured(c, kind).out
    ensures Ensured(c, kind).started == c.started && Ensured(c, kind).finalized == c.finalized
  {
    OpenedAddsEvents(c, kind);
  }

  lemma PieceAddsEvents(c: Conv, item: Item)
    ensures c.out <= Taken(c, item).out
    ensures Taken(c, item).started == c.started && Taken(c, item).finalized == c.finalized
  {
    match item
    case Reasoning(_) => EnsuredAddsEvents(c, Thinking);
    case Content(_) => EnsuredAddsEvents(c, Text);
    case Tool(f) => OpenedAddsEvents(c, ToolUse(f.id, f.name));
    case Finish(_) =>
  }

  lemma {:induction false} TakenAddsEvents(c: Conv, items: seq<Item>)
    ensures c.out <= TakenAll(c, items).out
    ensures TakenAll(c, items).started == c.started && TakenAll(c, items).finalized == c.finalized
  {
    if items != [] {
      TakenAddsEvents(c, items[..|items| - 1]);
      PieceAddsEvents(TakenAll(c, items[..|items| - 1]), items[|items| - 1]);
    }
  }

  lemma {:induction false} FedStarts(model: string, chunks: seq<Chunk>)
    requires chunks != []
    ensures Fed(model, chunks).started && !Fed(model, chunks).finalized && Fed(model, chunks).out != []
    ensures Fed(model, chunks).out[0] == Started(NEW_CONV, model, chunks[0].id, chunks[0].model).out[0]
  {
    var n := |chunks| - 1;
    var begun := ChunkBegun(Fed(model, chunks[..n]), model, chunks[n]);
    TakenAddsEvents(begun, ChoiceItems(chunks[n].choices));
    if n > 0 {
      FedStarts(model, chunks[..n]);
    } else {
      assert Fed(model, chunks[..0]) == NEW_CONV;
    }
  }

  /** A message's id is the first chunk's without surrounding white space, behind "msg_" if it does not start so; a
      blank one is named msg_stream. */
  predicate NamesMessage(told: string, id: string) {
    var trimmed := Strings.Trim(id);
    if trimmed == "" then told == "msg_stream"
    else if |trimmed| >= 4 && trimmed[..4] == "msg_" then told == trimmed
    else told == "msg_" + trimmed
  }

  lemma StartIsNamed(model: string, id: string, chunkModel: string)
    ensures var e := Started(NEW_CONV, model, id, chunkModel).out[0];
            e.MessageStart? && NamesMessage(e.id, id) && e.model == if chunkModel != "" then chunkModel else model
  {
    var trimmed := Strings.Trim(id);
    assert NEW_CONV.out == [];
    assert "msg_" <= trimmed <==> |trimmed| >= 4 && trimmed[..4] == "msg_";
    if trimmed != "" {
      assert NormalizeMessageId(id) != "";
    }
  }

  /** The message starts under the id and model of the first chunk, or the default model. */
  lemma MessageIsNamed(model: string, chunks: seq<Chunk>)
    ensures Finalized(Fed(model, chunks), model).out != []
    ensures var e := Finalized(Fed(model, chunks), model).out[0];
            e.MessageStart?
            && NamesMessage(e.id, if chunks == [] then "" else chunks[0].id)
            && e.model == if chunks != [] && chunks[0].model != "" then chunks[0].model else model
  {
    if chunks == [] {
      StartIsNamed(model, "", "");
    } else {
      FedStarts(model, chunks);
      StartIsNamed(model, chunks[0].id, chunks[0].model);
    }
  }

  // ---------------------------------------------------------------- the last events

  /** A count is told exactly if it is positive. */
  predicate TellsPositive(told: Option<int>, count: int) {
    (told.Some? <==> count > 0) && (told.Some? ==> told.value == count)
  }

  /** The tokens read from the cache: the count given, or that of the prompt's details if none is given. */
  predicate TellsUsage(p: UsagePayload, u: Usage) {
    && p.output == u.completion && TellsPositive(p.input, u.prompt) && TellsPositive(p.cacheCreation, u.cacheCreation)
    && (u.cacheRead > 0 ==> p.cacheRead == Some(u.cacheRead))
    && (u.cacheRead <= 0 && u.cachedTokens.None? ==> p.cacheRead == None)
    && (u.cacheRead <= 0 && u.cachedTokens.Some? ==> TellsPositive(p.cacheRead, u.cachedTokens.value))
  }

  /** The message ends with one delta and a stop: the delta tells the stop reason of the last finish reason in the
      chunks, and the usage of the last chunk that has one. */
  lemma MessageEnds(model: string, chunks: seq<Chunk>)
    ensures var out := Finalized(Fed(model, chunks), model).out;
      && |out| >= 2 && out[|out| - 1] == MessageStop && out[|out| - 2].MessageDelta?
      && out[|out| - 2].stopReason ==
         StopOf(StopReasonFromFinish(FinishOf(AllChoices(chunks)), FinishFollowsTool(AllChoices(chunks))))
      && TellsUsage(out[|out| - 2].usage, LastUsage(chunks))
  {
    FedUsage(model, chunks);
    StopReasonOfChunks(model, chunks);
    NotFinalized(model, chunks);
    EndEvents(Fed(model, chunks), model);
    PayloadTells(LastUsage(chunks));
  }

  lemma FedUsage(model: string, chunks: seq<Chunk>)
    ensures Fed(model, chunks).usage == LastUsage(chunks)
  {
    if chunks != [] {
      FedIsTaken(model, chunks);
    }
  }

  lemma EndEvents(c: Conv, model: string)
    requires !c.finalized
    ensures var out := Finalized(c, model).out;
            |out| >= 2 && out[|out| - 1] == MessageStop
            && out[|out| - 2] == MessageDelta(StopOf(c.stopReason), Payload(c.usage))
  {
  }

  lemma PayloadTells(u: Usage)
    ensures TellsUsage(Payload(u), u)
  {
  }

  lemma {:induction false} NotFinalized(model: string, chunks: seq<Chunk>)
    ensures !Fed(model, chunks).finalized
  {
    if chunks != [] {
      FedStarts(model, chunks);
    }
  }

  // ---------------------------------------------------------------- which lines count

  /** Every chunk before the first sentinel counts, in order; other lines do not, nor does anything behind it. */
  lemma LineCounts(lines: seq<Line>, line: Line, rest: seq<Line>)
    requires Done !in lines
    ensures ChunksOf(lines + [line] + rest) ==
            match line
            case Noise => ChunksOf(lines) + ChunksOf(rest)
            case Done => ChunksOf(lines)
            case Data(chunk) => ChunksOf(lines) + ([chunk] + ChunksOf(rest))
  {
    ChunksConcat(lines, [line] + rest);
    assert lines + [line] + rest == lines + ([line] + rest);
    assert ([line] + rest)[1..] == rest;
  }

  lemma {:induction false} ChunksConcat(lines: seq<Line>, rest: seq<Line>)
    requires Done !in lines
    ensures ChunksOf(lines + rest) == ChunksOf(lines) + ChunksOf(rest)
  {
    if lines == [] {
      assert lines + rest == rest;
    } else {
      ChunksConcat(lines[1..], rest);
      ChunksFirst(lines[0], lines[1..]);
      ChunksFirst(lines[0], lines[1..] + rest);
      assert lines == [lines[0]] + lines[1..] && lines + rest == [lines[0]] + (lines[1..] + rest);
      if lines[0].Data? {
        Associate([lines[0].chunk], ChunksOf(lines[1..]), ChunksOf(rest));
      }
    }
  }

  lemma ChunksFirst(line: Line, rest: seq<Line>)
    ensures ChunksOf([line] + rest) ==
            match line
            case Noise => ChunksOf(rest)
            case Done => []
            case Data(chunk) => [chunk] + ChunksOf(rest)
  {
    assert ([line] + rest)[1..] == rest;
  }
}
