/** When the stream agrees with the non-streaming translation (internal/anthropicapi/response.go) of the same response,
    told by the pieces the converter takes. */
module StreamResponses {
  import opened Wrappers
  import opened StreamConverter
  import opened StreamReading
  import opened StreamAgreement
  import opened StreamChoices

  // ---------------------------------------------------------------- stop reasons

  // Where there is no tool call, these finish reasons are told as tool use, the end of the turn and the token limit;
  // any other as itself.

  predicate MeansToolUse(finish: string) {
    finish == "tool_calls" || finish == TOOL_USE
  }

  predicate MeansEndTurn(finish: string) {
    finish == "" || finish == "stop" || finish == "content_filter" || finish == END_TURN
  }

  predicate MeansMaxTokens(finish: string) {
    finish == "length" || finish == "max_tokens"
  }

  predicate MeanTheSame(f: string, g: string) {
    || f == g || (MeansToolUse(f) && MeansToolUse(g))
    || (MeansEndTurn(f) && MeansEndTurn(g)) || (MeansMaxTokens(f) && MeansMaxTokens(g))
  }

  lemma MeansToolUseIff(f: string)
    ensures StopOf(StopReasonFromFinish(f, false)) == TOOL_USE <==> MeansToolUse(f)
  {
  }

  lemma MeansEndTurnIff(f: string)
    ensures StopOf(StopReasonFromFinish(f, false)) == END_TURN <==> MeansEndTurn(f)
  {
  }

  lemma MeansMaxTokensIff(f: string)
    ensures StopOf(StopReasonFromFinish(f, false)) == "max_tokens" <==> MeansMaxTokens(f)
  {
  }

  lemma MeansItselfElse(f: string)
    requires !MeansToolUse(f) && !MeansEndTurn(f) && !MeansMaxTokens(f)
    ensures StopOf(StopReasonFromFinish(f, false)) == f
  {
  }

  lemma Classify(f: string)
    ensures var stop := StopOf(StopReasonFromFinish(f, false));
      && (stop == TOOL_USE <==> MeansToolUse(f)) && (stop == END_TURN <==> MeansEndTurn(f))
      && (stop == "max_tokens" <==> MeansMaxTokens(f))
      && (stop == f || MeansToolUse(f) || MeansEndTurn(f) || MeansMaxTokens(f))
  {
    MeansToolUseIff(f);
    MeansEndTurnIff(f);
    MeansMaxTokensIff(f);
    if !MeansToolUse(f) && !MeansEndTurn(f) && !MeansMaxTokens(f) {
      MeansItselfElse(f);
    }
  }

  lemma MeanTheSameIff(f: string, g: string)
    ensures StopOf(StopReasonFromFinish(f, false)) == StopOf(StopReasonFromFinish(g, false)) <==> MeanTheSame(f, g)
  {
    Classify(f);
    Classify(g);
  }

  /** When what the stream says (its last finish reason, and whether a tool call came before it) is told like what the
      response says (its finish reason, and whether it has tool calls). */
  predicate StopsAlike(finish: string, afterTool: bool, respFinish: string, respTools: bool) {
    if respTools then afterTool || MeansToolUse(finish)
    else if afterTool then MeansToolUse(respFinish)
    else MeanTheSame(finish, respFinish)
  }

  lemma StopsAlikeIff(finish: string, afterTool: bool, respFinish: string, respTools: bool)
    ensures StopOf(StopReasonFromFinish(finish, afterTool)) == StopOf(StopReasonFromFinish(respFinish, respTools)) <==>
            StopsAlike(finish, afterTool, respFinish, respTools)
  {
    MeanTheSameIff(finish, respFinish);
    MeansToolUseIff(finish);
    MeansToolUseIff(respFinish);
  }

  lemma {:induction false} FinishAfterToolNeedsTool(items: seq<Item>)
    ensures FinishAfterTool(items) ==> AnyTool(items)
  {
    if items != [] {
      FinishAfterToolNeedsTool(items[..|items| - 1]);
    }
  }

  // Which choice of a response a chunk's choice belongs to is in its index, which the converter does not look at.

  /** Whether the j-th choice of the k-th chunk belongs to the first choice of the response. */
  type Own = (nat, nat) -> bool

  function OwnChoiceItems(choices: seq<Choice>, own: Own, k: nat): seq<Item> {
    if choices == [] then [] else
      var j := |choices| - 1;
      OwnChoiceItems(choices[..j], own, k) + if own(k, j) then ItemsOf(choices[j]) else []
  }

  /** The pieces of the response's first choice. */
  function OwnItems(chunks: seq<Chunk>, own: Own): seq<Item> {
    if chunks == [] then [] else
      var k := |chunks| - 1;
      OwnItems(chunks[..k], own) + OwnChoiceItems(chunks[k].choices, own, k)
  }

  // The response knows each call's id and name, whichever fragment brought them, and has the calls in an order of its
  // own; as a rule that of their indices.

  /** The last id among the fragments of a call that is not empty. */
  function CallId(k: int, items: seq<Item>): string {
    if items == [] then "" else
      var last := items[|items| - 1];
      if IsTool(k, last) && last.fragment.id != "" then last.fragment.id else CallId(k, items[..|items| - 1])
  }

  function CallName(k: int, items: seq<Item>): string {
    if items == [] then "" else
      var last := items[|items| - 1];
      if IsTool(k, last) && last.fragment.name != "" then last.fragment.name else CallName(k, items[..|items| - 1])
  }

  function Identity(k: int, items: seq<Item>): (string, string) {
    (CallId(k, items), CallName(k, items))
  }

  /** The id and name in a call's first fragment. */
  function Opening(k: int, items: seq<Item>): (string, string) {
    (StreamedCall(k, items).id, StreamedCall(k, items).name)
  }

  function Arguments(k: int, items: seq<Item>): string {
    StreamedCall(k, items).arguments
  }

  function AnsweredCalls(order: seq<int>, items: seq<Item>): seq<ToolCall> {
    seq(|order|, p requires 0 <= p < |order| =>
      ToolCall(Identity(order[p], items).0, Identity(order[p], items).1, Arguments(order[p], items)))
  }

  function Answered(order: seq<int>, items: seq<Item>): Message {
    Message(Reasonings(items), Contents(items), AnsweredCalls(order, items))
  }

  /** All the tool calls among the pieces, each once. */
  ghost predicate ListsCalls(order: seq<int>, items: seq<Item>) {
    && (forall k :: Seen(k, items) <==> k in order)
    && (forall p, q :: 0 <= p < q < |order| ==> order[p] != order[q])
  }

  /** The response that the pieces of the first choice add up to, with its tool calls in this order. */
  ghost predicate GatheredFrom(resp: ChatResponse, chunks: seq<Chunk>, own: Own, order: seq<int>) {
    && ListsCalls(order, OwnItems(chunks, own))
    && resp.choices != []
    && resp.choices[0] == ChatChoice(Answered(order, OwnItems(chunks, own)), LastFinish(OwnItems(chunks, own)))
  }

  lemma JoinedLead(r: string, t: string)
    ensures Joined(Thinking, LeadBlocks(r, t)) == r && Joined(Text, LeadBlocks(r, t)) == t
  {
    var thinking := if r != "" then [Block(Thinking, r)] else [];
    assert Joined(Thinking, []) == "" && Joined(Text, []) == "";
    JoinedAppended(Thinking, [], Block(Thinking, r));
    JoinedAppended(Text, [], Block(Thinking, r));
    JoinedAppended(Thinking, thinking, Block(Text, t));
    JoinedAppended(Text, thinking, Block(Text, t));
    assert [] + [Block(Thinking, r)] == [Block(Thinking, r)];
    assert LeadBlocks(r, t) == thinking + if t != "" then [Block(Text, t)] else [];
  }

  lemma CallsDetermined(c: seq<ToolCall>, d: seq<ToolCall>)
    requires CallBlocks(c) == CallBlocks(d)
    ensures c == d
  {
    assert |c| == |CallBlocks(c)| == |d|;
    forall i | 0 <= i < |c| ensures c[i] == d[i] {
      assert CallBlocks(c)[i] == CallBlock(c[i]) && CallBlocks(d)[i] == CallBlock(d[i]);
    }
  }

  /** How many blocks come before the first tool call. */
  function LeadLength(blocks: seq<Block>): nat {
    if blocks == [] || blocks[0].kind.ToolUse? then 0 else 1 + LeadLength(blocks[1..])
  }

  lemma {:induction false} LeadEndsAtTools(lead: seq<Block>, calls: seq<ToolCall>)
    requires forall i :: 0 <= i < |lead| ==> !lead[i].kind.ToolUse?
    ensures LeadLength(lead + CallBlocks(calls)) == |lead|
  {
    if lead == [] {
      assert lead + CallBlocks(calls) == CallBlocks(calls);
    } else {
      LeadEndsAtTools(lead[1..], calls);
      assert (lead + CallBlocks(calls))[1..] == lead[1..] + CallBlocks(calls);
    }
  }

  /** The blocks tell everything about the message. */
  lemma ContentDeterminesMessage(m: Message, n: Message)
    requires ContentOf(m) == ContentOf(n)
    ensures m == n
  {
    var a, b := LeadBlocks(m.reasoning, m.text), LeadBlocks(n.reasoning, n.text);
    LeadEndsAtTools(a, m.toolCalls);
    LeadEndsAtTools(b, n.toolCalls);
    assert a == ContentOf(m)[..|a|] && b == ContentOf(n)[..|b|];
    assert CallBlocks(m.toolCalls) == ContentOf(m)[|a|..] && CallBlocks(n.toolCalls) == ContentOf(n)[|b|..];
    JoinedLead(m.reasoning, m.text);
    JoinedLead(n.reasoning, n.text);
    CallsDetermined(m.toolCalls, n.toolCalls);
  }

  // When do the pieces of other choices add nothing?

  /** How much text the choices that are not the response's first one carry. */
  function OthersCarry(text: Item -> string, choices: seq<Choice>, own: Own, k: nat): nat {
    if choices == [] then 0 else
      var j := |choices| - 1;
      OthersCarry(text, choices[..j], own, k) + if own(k, j) then 0 else |Carried(text, ItemsOf(choices[j]))|
  }

  function AllOthersCarry(text: Item -> string, chunks: seq<Chunk>, own: Own): nat {
    if chunks == [] then 0 else
      var k := |chunks| - 1;
      AllOthersCarry(text, chunks[..k], own) + OthersCarry(text, chunks[k].choices, own, k)
  }

  lemma {:induction false} ChoicesCarry(text: Item -> string, choices: seq<Choice>, own: Own, k: nat)
    ensures var all, mine := Carried(text, ChoiceItems(choices)), Carried(text, OwnChoiceItems(choices, own, k));
            |all| == |mine| + OthersCarry(text, choices, own, k)
              && (OthersCarry(text, choices, own, k) == 0 ==> all == mine)
  {
    if choices != [] {
      var j := |choices| - 1;
      var before, last := choices[..j], ItemsOf(choices[j]);
      ChoicesCarry(text, before, own, k);
      CarriedConcat(text, ChoiceItems(before), last);
      CarriedConcat(text, OwnChoiceItems(before, own, k), if own(k, j) then last else []);
    }
  }

  lemma {:induction false} ChunksCarry(text: Item -> string, chunks: seq<Chunk>, own: Own)
    ensures var all, mine := Carried(text, AllItems(chunks)), Carried(text, OwnItems(chunks, own));
            |all| == |mine| + AllOthersCarry(text, chunks, own)
              && (AllOthersCarry(text, chunks, own) == 0 ==> all == mine)
  {
    if chunks != [] {
      var k := |chunks| - 1;
      ChunksCarry(text, chunks[..k], own);
      ChoicesCarry(text, chunks[k].choices, own, k);
      CarriedConcat(text, AllItems(chunks[..k]), ChoiceItems(chunks[k].choices));
      CarriedConcat(text, OwnItems(chunks[..k], own), OwnChoiceItems(chunks[k].choices, own, k));
    }
  }

  /** The choices that are not the response's first one carry nothing of this kind. */
  ghost predicate OthersAreSilent(text: Item -> string, chunks: seq<Chunk>, own: Own) {
    forall k: nat :: k < |chunks| ==> OthersAreSilentIn(text, chunks[k].choices, own, k)
  }

  ghost predicate OthersAreSilentIn(text: Item -> string, choices: seq<Choice>, own: Own, k: nat) {
    forall j: nat :: j < |choices| ==> own(k, j) || Carried(text, ItemsOf(choices[j])) == ""
  }

  lemma SilentOneMore(text: Item -> string, choices: seq<Choice>, own: Own, k: nat)
    requires choices != []
    ensures var n := |choices| - 1;
            OthersAreSilentIn(text, choices, own, k) <==>
              OthersAreSilentIn(text, choices[..n], own, k) && (own(k, n) || Carried(text, ItemsOf(choices[n])) == "")
  {
    var n := |choices| - 1;
    assert forall j: nat :: j < n ==> choices[..n][j] == choices[j];
  }

  lemma {:induction false} OthersCarryNothingIff(text: Item -> string, choices: seq<Choice>, own: Own, k: nat)
    ensures OthersCarry(text, choices, own, k) == 0 <==> OthersAreSilentIn(text, choices, own, k)
  {
    if choices != [] {
      OthersCarryNothingIff(text, choices[..|choices| - 1], own, k);
      SilentOneMore(text, choices, own, k);
    }
  }

  lemma AllSilentOneMore(text: Item -> string, chunks: seq<Chunk>, own: Own)
    requires chunks != []
    ensures var n := |chunks| - 1;
            OthersAreSilent(text, chunks, own) <==>
              OthersAreSilent(text, chunks[..n], own) && OthersAreSilentIn(text, chunks[n].choices, own, n)
  {
    var n := |chunks| - 1;
    assert forall k: nat :: k < n ==> chunks[..n][k] == chunks[k];
  }

  lemma {:induction false} AllOthersCarryNothingIff(text: Item -> string, chunks: seq<Chunk>, own: Own)
    ensures AllOthersCarry(text, chunks, own) == 0 <==> OthersAreSilent(text, chunks, own)
  {
    if chunks != [] {
      var n := |chunks| - 1;
      AllOthersCarryNothingIff(text, chunks[..n], own);
      OthersCarryNothingIff(text, chunks[n].choices, own, n);
      AllSilentOneMore(text, chunks, own);
    }
  }

  lemma SilentOthersAddNothing(text: Item -> string, chunks: seq<Chunk>, own: Own)
    ensures var all, mine := Carried(text, AllItems(chunks)), Carried(text, OwnItems(chunks, own));
            OthersAreSilent(text, chunks, own) <==> |all| == |mine|
    ensures OthersAreSilent(text, chunks, own) ==>
            Carried(text, AllItems(chunks)) == Carried(text, OwnItems(chunks, own))
  {
    ChunksCarry(text, chunks, own);
    AllOthersCarryNothingIff(text, chunks, own);
  }

  // Of the tool calls they carry no arguments.

  function ArgumentsIn(item: Item): string {
    if item.Tool? then item.fragment.arguments else ""
  }

  function ArgumentsTo(k: int): Item -> string {
    (item: Item) => if IsTool(k, item) then item.fragment.arguments else ""
  }

  lemma {:induction false} CarriedTo(k: int, items: seq<Item>)
    ensures Carried(ArgumentsTo(k), items) == Arguments(k, items)
    ensures !Seen(k, items) ==> Arguments(k, items) == ""
  {
    if items != [] {
      CarriedTo(k, items[..|items| - 1]);
    }
  }

  /** The choice carries no reasoning, no text and no arguments. */
  predicate IsMute(choice: Choice) {
    && choice.reasoning == "" && choice.content == ""
    && forall f :: f in choice.toolCalls ==> f.arguments == ""
  }

  /** The choices that are not the response's first one are mute. */
  ghost predicate OthersAreMute(chunks: seq<Chunk>, own: Own) {
    forall k: nat, j: nat :: k < |chunks| && j < |chunks[k].choices| ==> own(k, j) || IsMute(chunks[k].choices[j])
  }

  lemma {:induction false} CarriedNothingIff(text: Item -> string, items: seq<Item>)
    ensures Carried(text, items) == "" <==> forall i :: 0 <= i < |items| ==> text(items[i]) == ""
  {
    if items != [] {
      var n := |items| - 1;
      CarriedNothingIff(text, items[..n]);
      assert forall i :: 0 <= i < n ==> items[..n][i] == items[i];
      assert Carried(text, items) == Carried(text, items[..n]) + text(items[n]);
    }
  }

  lemma NoArgumentsIff(choice: Choice)
    ensures Carried(ArgumentsIn, ItemsOf(choice)) == "" <==> forall f :: f in choice.toolCalls ==> f.arguments == ""
  {
    ArgumentsOfParts(DeltaItems(choice), choice.toolCalls, FinishItems(choice));
  }

  lemma ArgumentsOfParts(deltas: seq<Item>, calls: seq<ToolFragment>, finish: seq<Item>)
    requires forall i :: 0 <= i < |deltas| ==> !deltas[i].Tool?
    requires forall i :: 0 <= i < |finish| ==> !finish[i].Tool?
    ensures Carried(ArgumentsIn, deltas + ToolItems(calls) + finish) == "" <==>
            forall f :: f in calls ==> f.arguments == ""
  {
    CarriedConcat(ArgumentsIn, deltas, ToolItems(calls));
    CarriedConcat(ArgumentsIn, deltas + ToolItems(calls), finish);
    CarriedNothing(ArgumentsIn, deltas);
    CarriedNothing(ArgumentsIn, finish);
    CarriedNothingIff(ArgumentsIn, ToolItems(calls));
    assert forall i :: 0 <= i < |calls| ==> ArgumentsIn(ToolItems(calls)[i]) == calls[i].arguments;
  }

  lemma MuteIff(chunks: seq<Chunk>, own: Own)
    ensures OthersAreMute(chunks, own) <==>
            OthersAreSilent(ReasoningIn, chunks, own) && OthersAreSilent(ContentIn, chunks, own)
            && OthersAreSilent(ArgumentsIn, chunks, own)
  {
    forall choice
      ensures IsMute(choice) <==>
              Carried(ReasoningIn, ItemsOf(choice)) == "" && Carried(ContentIn, ItemsOf(choice)) == ""
              && Carried(ArgumentsIn, ItemsOf(choice)) == ""
    {
      CarriedByChoice(choice);
      NoArgumentsIff(choice);
    }
    assert OthersAreMute(chunks, own) <==>
           forall k: nat :: k < |chunks| ==>
             forall j: nat :: j < |chunks[k].choices| ==> own(k, j) || IsMute(chunks[k].choices[j]);
  }

  lemma SilentToEach(chunks: seq<Chunk>, own: Own, k: int)
    requires OthersAreSilent(ArgumentsIn, chunks, own)
    ensures Arguments(k, AllItems(chunks)) == Arguments(k, OwnItems(chunks, own))
  {
    forall choice | Carried(ArgumentsIn, ItemsOf(choice)) == "" ensures Carried(ArgumentsTo(k), ItemsOf(choice)) == "" {
      CarriedNothingIff(ArgumentsIn, ItemsOf(choice));
      CarriedNothing(ArgumentsTo(k), ItemsOf(choice));
    }
    assert OthersAreSilent(ArgumentsTo(k), chunks, own);
    SilentOthersAddNothing(ArgumentsTo(k), chunks, own);
    CarriedTo(k, AllItems(chunks));
    CarriedTo(k, OwnItems(chunks, own));
  }

  // The arguments of all calls together, however the calls are listed, are what the pieces carry.

  function TotalLength(strings: seq<string>): nat {
    if strings == [] then 0 else TotalLength(strings[..|strings| - 1]) + |strings[|strings| - 1]|
  }

  lemma {:induction false} TotalLengthAt(strings: seq<string>, p: nat, s: string)
    requires p <= |strings|
    ensures TotalLength(strings[..p] + [s] + strings[p..]) == TotalLength(strings) + |s|
    decreases |strings|
  {
    var n := |strings|;
    var more := strings[..p] + [s] + strings[p..];
    if p == n {
      assert more[..n] == strings;
    } else {
      TotalLengthAt(strings[..n - 1], p, s);
      assert more[..n] == strings[..n - 1][..p] + [s] + strings[..n - 1][p..];
    }
  }

  function AllArguments(order: seq<int>, items: seq<Item>): seq<string> {
    seq(|order|, p requires 0 <= p < |order| => Arguments(order[p], items))
  }

  function Without(order: seq<int>, p: nat): seq<int>
    requires p < |order|
  {
    order[..p] + order[p + 1..]
  }

  lemma ArgumentsApart(order: seq<int>, items: seq<Item>, p: nat)
    requires p < |order|
    ensures TotalLength(AllArguments(order, items)) ==
            TotalLength(AllArguments(Without(order, p), items)) + |Arguments(order[p], items)|
  {
    var rest := AllArguments(Without(order, p), items);
    TotalLengthAt(rest, p, Arguments(order[p], items));
    assert rest[..p] + [Arguments(order[p], items)] + rest[p..] == AllArguments(order, items);
  }

  lemma OthersArgumentsStay(order: seq<int>, items: seq<Item>, item: Item)
    requires forall p :: 0 <= p < |order| ==> !IsTool(order[p], item)
    ensures AllArguments(order, items + [item]) == AllArguments(order, items)
  {
    forall p | 0 <= p < |order| ensures Arguments(order[p], items + [item]) == Arguments(order[p], items) {
      OneMorePiece(items, item, order[p]);
    }
  }

  lemma ListsFewer(order: seq<int>, items: seq<Item>, item: Item, p: nat)
    requires ListsCalls(order, items + [item]) && p < |order| && IsTool(order[p], item) && !Seen(order[p], items)
    ensures ListsCalls(Without(order, p), items)
  {
    forall k ensures Seen(k, items) <==> k in Without(order, p) {
      OneMorePiece(items, item, k);
      assert k in order <==> k == order[p] || k in Without(order, p);
      assert order[p] !in Without(order, p);
    }
  }

  lemma ListsSame(order: seq<int>, items: seq<Item>, item: Item)
    requires ListsCalls(order, items + [item]) && (item.Tool? ==> Seen(item.fragment.index, items))
    ensures ListsCalls(order, items)
  {
    forall k ensures Seen(k, items) <==> k in order {
      OneMorePiece(items, item, k);
    }
  }

  /** One more fragment: the calls together get its arguments. */
  lemma ArgumentsOneMore(order: seq<int>, items: seq<Item>, item: Item, p: nat)
    requires ListsCalls(order, items + [item]) && p < |order| && IsTool(order[p], item)
    ensures TotalLength(AllArguments(order, items + [item])) ==
            TotalLength(AllArguments(Without(order, p), items)) + |Arguments(order[p], items)| + |ArgumentsIn(item)|
  {
    ArgumentsApart(order, items + [item], p);
    OthersArgumentsStay(Without(order, p), items, item);
    OneMorePiece(items, item, order[p]);
    CarriedTo(order[p], items);
  }

  lemma {:induction false} ArgumentsAddUp(order: seq<int>, items: seq<Item>)
    requires ListsCalls(order, items)
    ensures TotalLength(AllArguments(order, items)) == |Carried(ArgumentsIn, items)|
    decreases |items|
  {
    if items == [] {
      ListsNoneIff(order, items);
    } else {
      var before, last := items[..|items| - 1], items[|items| - 1];
      assert before + [last] == items;
      if !last.Tool? {
        ListsSame(order, before, last);
        OthersArgumentsStay(order, before, last);
        ArgumentsAddUp(order, before);
      } else {
        assert Seen(last.fragment.index, items);
        var p :| 0 <= p < |order| && order[p] == last.fragment.index;
        ArgumentsOneMore(order, before, last, p);
        if Seen(order[p], before) {
          ListsSame(order, before, last);
          ArgumentsAddUp(order, before);
          ArgumentsApart(order, before, p);
        } else {
          ListsFewer(order, before, last, p);
          ArgumentsAddUp(Without(order, p), before);
          CarriedTo(order[p], before);
        }
      }
    }
  }

  // ---------------------------------------------------------------- agreement

  /** The fragments that begin the tool calls carry these ids and names, in turn. */
  ghost predicate BeginAs(items: seq<Item>, names: seq<(string, string)>) {
    var begun := CallOrder(items);
    |begun| == |names| && forall p :: 0 <= p < |begun| ==> Opening(begun[p], items) == names[p]
  }

  /** The calls begin in this order, or where they do not, the first choice gives both the same arguments. */
  ghost predicate ArgumentsInTurn(items: seq<Item>, mine: seq<Item>, order: seq<int>) {
    var begun := CallOrder(items);
    && |begun| == |order|
    && forall p :: 0 <= p < |begun| ==> begun[p] == order[p] || Arguments(begun[p], mine) == Arguments(order[p], mine)
  }

  function Openings(order: seq<int>, items: seq<Item>): seq<(string, string)> {
    seq(|order|, p requires 0 <= p < |order| => Opening(order[p], items))
  }

  function Identities(order: seq<int>, items: seq<Item>): seq<(string, string)> {
    seq(|order|, p requires 0 <= p < |order| => Identity(order[p], items))
  }

  function NamesOf(calls: seq<ToolCall>): seq<(string, string)> {
    seq(|calls|, p requires 0 <= p < |calls| => (calls[p].id, calls[p].name))
  }

  lemma SameCallsSameTotal(chunks: seq<Chunk>, own: Own, order: seq<int>, calls: seq<ToolCall>)
    requires ListsCalls(order, OwnItems(chunks, own)) && |calls| == |order|
    requires forall p :: 0 <= p < |calls| ==> calls[p].arguments == Arguments(order[p], OwnItems(chunks, own))
    requires StreamedCalls(CallOrder(AllItems(chunks)), AllItems(chunks)) == calls
    ensures OthersAreSilent(ArgumentsIn, chunks, own)
  {
    var all, mine := AllItems(chunks), OwnItems(chunks, own);
    OrderIsSeen(all);
    forall p | 0 <= p < |calls| ensures Arguments(CallOrder(all)[p], all) == Arguments(order[p], mine) {
      assert StreamedCalls(CallOrder(all), all)[p] == calls[p];
    }
    assert AllArguments(CallOrder(all), all) == AllArguments(order, mine);
    ArgumentsAddUp(CallOrder(all), all);
    ArgumentsAddUp(order, mine);
    SilentOthersAddNothing(ArgumentsIn, chunks, own);
  }

  /** The stream tells these calls exactly if the other choices carry no arguments and its calls begin as these, each
      with its arguments. */
  lemma CallsToldIff(chunks: seq<Chunk>, own: Own, order: seq<int>, calls: seq<ToolCall>)
    requires ListsCalls(order, OwnItems(chunks, own)) && |calls| == |order|
    requires forall p :: 0 <= p < |calls| ==> calls[p].arguments == Arguments(order[p], OwnItems(chunks, own))
    ensures var all := AllItems(chunks);
            StreamedCalls(CallOrder(all), all) == calls <==>
              OthersAreSilent(ArgumentsIn, chunks, own) && BeginAs(all, NamesOf(calls))
              && ArgumentsInTurn(all, OwnItems(chunks, own), order)
  {
    var all, mine := AllItems(chunks), OwnItems(chunks, own);
    var told := StreamedCalls(CallOrder(all), all);
    if told == calls {
      SameCallsSameTotal(chunks, own, order, calls);
    }
    if OthersAreSilent(ArgumentsIn, chunks, own) && |told| == |calls| {
      forall p | 0 <= p < |calls| ensures told[p].arguments == Arguments(CallOrder(all)[p], mine) {
        SilentToEach(chunks, own, CallOrder(all)[p]);
      }
      if told == calls {
        forall p | 0 <= p < |calls| ensures Opening(CallOrder(all)[p], all) == NamesOf(calls)[p] {
          assert told[p] == calls[p];
        }
      }
      if BeginAs(all, NamesOf(calls)) && ArgumentsInTurn(all, mine, order) {
        forall p | 0 <= p < |calls| ensures told[p] == calls[p] {
          assert Opening(CallOrder(all)[p], all) == NamesOf(calls)[p];
        }
      }
    }
  }

  /** The stream tells this message exactly if the others are mute and the calls begin as its calls, each with its
      arguments. */
  lemma MessageToldIff(chunks: seq<Chunk>, own: Own, order: seq<int>, m: Message)
    requires var mine := OwnItems(chunks, own);
             && ListsCalls(order, mine) && |m.toolCalls| == |order|
             && m.reasoning == Reasonings(mine) && m.text == Contents(mine)
             && forall p :: 0 <= p < |order| ==> m.toolCalls[p].arguments == Arguments(order[p], mine)
    ensures var items := AllItems(chunks);
            Streamed(items) == m <==>
              OthersAreMute(chunks, own) && BeginAs(items, NamesOf(m.toolCalls))
              && ArgumentsInTurn(items, OwnItems(chunks, own), order)
  {
    MuteIff(chunks, own);
    CarriedIs(AllItems(chunks));
    CarriedIs(OwnItems(chunks, own));
    SilentOthersAddNothing(ReasoningIn, chunks, own);
    SilentOthersAddNothing(ContentIn, chunks, own);
    CallsToldIff(chunks, own, order, m.toolCalls);
  }

  /** Agreement with the non-streaming translation, told by the pieces. */
  lemma PiecesAgreeIff(model: string, chunks: seq<Chunk>, own: Own, order: seq<int>, resp: ChatResponse)
    requires GatheredFrom(resp, chunks, own, order)
    ensures var items, mine := AllItems(chunks), OwnItems(chunks, own);
            var ChatChoice(m, finish) := resp.choices[0];
            var reading := ReadAll(Finalized(Fed(model, chunks), model).out);
      && reading.Complete?
      && (reading.blocks == ContentOf(m) <==>
            Phased(items) && OthersAreMute(chunks, own) && BeginAs(items, Identities(order, mine))
            && ArgumentsInTurn(items, mine, order))
      && (reading.stopReason == StopOf(StopReasonFromFinish(finish, m.toolCalls != [])) <==>
            StopsAlike(LastFinish(items), FinishAfterTool(items), finish, m.toolCalls != []))
  {
    var b, items := Begun(model, chunks), AllItems(chunks);
    var ChatChoice(m, finish) := resp.choices[0];
    ConversionIsWellFormed(model, chunks);
    BegunIsFresh(model, chunks);
    BlocksAgreeIff(b, chunks, own, order, m);
    StopReasonOfPieces(b, items);
    StopReasonFed(model, chunks);
    StopsAlikeIff(LastFinish(items), FinishAfterTool(items), finish, m.toolCalls != []);
  }

  lemma BlocksAgreeIff(b: Conv, chunks: seq<Chunk>, own: Own, order: seq<int>, m: Message)
    requires Fresh(b) && ListsCalls(order, OwnItems(chunks, own)) && m == Answered(order, OwnItems(chunks, own))
    ensures var items, mine := AllItems(chunks), OwnItems(chunks, own);
            BlocksOf(b, items) == ContentOf(m) <==>
              Phased(items) && OthersAreMute(chunks, own) && BeginAs(items, Identities(order, mine))
              && ArgumentsInTurn(items, mine, order)
  {
    var items := AllItems(chunks);
    AllItemsNonEmpty(chunks);
    PiecesTrackPhase(b, items);
    ContentIsSorted(m);
    MessageToldIff(chunks, own, order, m);
    assert NamesOf(m.toolCalls) == Identities(order, OwnItems(chunks, own));
    if Phased(items) {
      AgreementIsEquality(b, items);
      if ContentOf(Streamed(items)) == ContentOf(m) {
        ContentDeterminesMessage(Streamed(items), m);
      }
    }
  }

  lemma StopReasonFed(model: string, chunks: seq<Chunk>)
    ensures Fed(model, chunks).stopReason == TakenAll(Begun(model, chunks), AllItems(chunks)).stopReason
  {
    if chunks != [] {
      FedIsTaken(model, chunks);
    }
  }

  lemma {:induction false} OwnChoiceItemsAreAll(choices: seq<Choice>, own: Own, k: nat)
    requires forall j: nat :: j < |choices| ==> own(k, j)
    ensures OwnChoiceItems(choices, own, k) == ChoiceItems(choices)
  {
    if choices != [] {
      OwnChoiceItemsAreAll(choices[..|choices| - 1], own, k);
    }
  }

  lemma {:induction false} OwnItemsAreAll(chunks: seq<Chunk>, own: Own)
    requires forall k: nat, j: nat :: k < |chunks| && j < |chunks[k].choices| ==> own(k, j)
    ensures OwnItems(chunks, own) == AllItems(chunks)
  {
    if chunks != [] {
      var k := |chunks| - 1;
      OwnItemsAreAll(chunks[..k], own);
      OwnChoiceItemsAreAll(chunks[k].choices, own, k);
    }
  }

  lemma ListsNoneIff(order: seq<int>, items: seq<Item>)
    requires ListsCalls(order, items)
    ensures order == [] <==> !AnyTool(items)
  {
    OrderIsEmptyIff(items);
    OrderIsSeen(items);
    if order != [] {
      assert Seen(order[0], items);
    }
    if CallOrder(items) != [] {
      assert Seen(CallOrder(items)[0], items);
    }
  }
}
