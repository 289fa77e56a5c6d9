/** Native assistant content kept beside a message, for replay on the very same route. JSON
    and SHA-256 are the members of `Codec`; what is asked of them is `Faithful`. */
module NativeCustody {
  import opened Options
  import opened Whitespace

  /** One item of a native content list. `Loose` is an item that is no object. A tool use
      whose id is no string has none. */
  datatype Block<J> =
    | ToolUse(id: Option<string>, name: Option<string>, input: J)
    | Thinking(data: J)
    | RedactedThinking(data: J)
    | OtherBlock(kind: string, data: J)
    | Loose(data: J)

  /** Serialize a list, read one back, digest a text, read the arguments of a call. */
  datatype Codec<!J> = Codec(
    encode: seq<Block<J>> -> string,
    decode: string -> Option<seq<Block<J>>>,
    digest: string -> string,
    parse: string -> Option<J>)

  ghost predicate Faithful<J(!new)>(codec: Codec<J>) {
    && (forall content :: codec.decode(codec.encode(content)) == Some(content))
    && (forall a, b :: codec.digest(a) == codec.digest(b) ==> a == b)
  }

  datatype Target = Target(provider: string, endpoint: string, model: string)

  datatype Route = Route(provider: string, endpointDigest: string, surface: string, model: string)

  /** A receipt as found in a message; a malformed one has other keys or types. */
  datatype Receipt =
    | Malformed
    | Receipt(version: int, route: Option<Route>, digest: string, json: string, toolIds: seq<string>)

  datatype Call = Call(isFunction: bool, id: Option<string>, name: Option<string>, arguments: Option<string>)

  datatype Message = Message(calls: Option<seq<Call>>, receipt: Option<Receipt>, consumed: Option<seq<string>>)

  datatype Retention = Rejected | Retained(message: Message)

  const RECEIPT_VERSION := 1

  /** A non-empty id with no space at either end. */
  predicate Exact(id: string) {
    id != "" && !IsSpace(id[0]) && !IsSpace(id[|id| - 1])
  }

  function RouteOf<J>(codec: Codec<J>, target: Target): Option<Route> {
    if target.provider != "anthropic" || target.endpoint == "" || target.model == "" then None
    else Some(Route(target.provider, codec.digest(target.endpoint), "messages", target.model))
  }

  // ---- the tool uses of a list ----

  function ToolUses<J>(content: seq<Block<J>>): seq<Block<J>> {
    if content == [] then []
    else ToolUses(content[..|content| - 1]) + (if content[|content| - 1].ToolUse? then [content[|content| - 1]] else [])
  }

  function IdsOf<J>(content: seq<Block<J>>): seq<string> {
    if content == [] then []
    else
      var last := content[|content| - 1];
      IdsOf(content[..|content| - 1]) + (if last.ToolUse? then [last.id.GetOr("")] else [])
  }

  predicate ExactIds<J>(content: seq<Block<J>>) {
    forall i :: 0 <= i < |content| && content[i].ToolUse? ==> content[i].id.Some? && Exact(content[i].id.value)
  }

  predicate Distinct(ids: seq<string>) {
    forall i, j :: 0 <= i < j < |ids| ==> ids[i] != ids[j]
  }

  /** The ids in order, or the source's error. */
  function ToolIds<J>(content: seq<Block<J>>): Option<seq<string>> {
    if ExactIds(content) && Distinct(IdsOf(content)) then Some(IdsOf(content)) else None
  }

  method NativeToolIds<J(==)>(content: seq<Block<J>>) returns (ids: Option<seq<string>>)
    ensures ids == ToolIds(content)
  {
    var found: seq<string> := [];
    for i := 0 to |content|
      invariant found == IdsOf(content[..i]) && ExactIds(content[..i])
    {
      var block := content[i];
      assert content[..i + 1][..i] == content[..i];
      if block.ToolUse? {
        if block.id.None? || !Exact(block.id.value) {
          return None;
        }
        found := found + [block.id.value];
      }
    }
    assert content[..|content|] == content;
    return if Distinct(found) then Some(found) else None;
  }

  // ---- retain, validate, replay ----

  predicate CallMatches<J(==)>(codec: Codec<J>, call: Call, block: Block<J>)
    requires block.ToolUse?
  {
    && call.arguments.Some? && codec.parse(call.arguments.value) == Some(block.input)
    && call.isFunction && call.id == block.id && call.name == block.name
  }

  predicate CallsMatch<J(==)>(codec: Codec<J>, message: Message, content: seq<Block<J>>) {
    var uses := ToolUses(content);
    && message.calls.Some? && |message.calls.value| == |uses|
    && forall i :: 0 <= i < |uses| ==> uses[i].ToolUse? && CallMatches(codec, message.calls.value[i], uses[i])
  }

  predicate AllObjects<J>(content: seq<Block<J>>) {
    forall i :: 0 <= i < |content| ==> !content[i].Loose?
  }

  /** A list without tool uses is not kept; bad ids or a bad route are the source's error. */
  function Retain<J>(codec: Codec<J>, message: Message, content: seq<Block<J>>, target: Target): Retention {
    match ToolIds(content)
    case None => Rejected
    case Some(ids) =>
      if ids == [] then Retained(message)
      else match RouteOf(codec, target)
        case None => Rejected
        case Some(route) =>
          var json := codec.encode(content);
          Retained(message.(receipt := Some(Receipt(RECEIPT_VERSION, Some(route), codec.digest(json), json, ids))))
  }

  /** The content a receipt vouches for, checked against its digest, its ids and the calls. */
  function Validated<J(==)>(codec: Codec<J>, message: Message, target: Option<Target>): Option<seq<Block<J>>> {
    if message.receipt.None? || message.receipt.value.Malformed? then None
    else
      var r := message.receipt.value;
      if r.version != RECEIPT_VERSION || r.route.None? then None
      else if target.Some? && RouteOf(codec, target.value) != r.route then None
      else if codec.digest(r.json) != r.digest then None
      else match codec.decode(r.json)
        case None => None
        case Some(content) =>
          if AllObjects(content) && ToolIds(content) == Some(r.toolIds) && CallsMatch(codec, message, content)
          then Some(content) else None
  }

  function Replay<J(==)>(
      codec: Codec<J>, message: Message, target: Target, resultIds: seq<string>): Option<seq<Block<J>>> {
    match Validated(codec, message, Some(target))
    case None => None
    case Some(content) => if ToolIds(content) == Some(resultIds) then Some(content) else None
  }

  lemma IdsAreToolUses<J>(content: seq<Block<J>>)
    ensures |IdsOf(content)| == |ToolUses(content)|
    ensures IdsOf(content) == [] <==> ToolUses(content) == []
  {
  }

  /** A retained list comes back whole exactly on its own route, for its own tool results in
      order, when every item is an object and the canonical calls are its tool uses; on any
      other route, for any other results, nothing comes back. */
  lemma RetainThenReplay<J(!new)>(
      codec: Codec<J>, message: Message, content: seq<Block<J>>, target: Target, other: Target, resultIds: seq<string>)
    requires Faithful(codec)
    requires Retain(codec, message, content, target).Retained? && ToolUses(content) != []
    ensures var kept := Retain(codec, message, content, target).message;
      Replay(codec, kept, other, resultIds) ==
        if other == target && ToolIds(content) == Some(resultIds) && AllObjects(content) &&
          CallsMatch(codec, message, content)
        then Some(content) else None
  {
    IdsAreToolUses(content);
    var kept := Retain(codec, message, content, target).message;
    assert codec.decode(kept.receipt.value.json) == Some(content);
    assert CallsMatch(codec, kept, content) == CallsMatch(codec, message, content);
    if RouteOf(codec, other) == RouteOf(codec, target) {
      assert other == target;
    }
  }

  /** Which lists are kept, and which are the source's error: bad or repeated ids, or a route that
      is not an exact one; a list without tool uses is not kept at all. */
  lemma RetainsExactly<J>(codec: Codec<J>, message: Message, content: seq<Block<J>>, target: Target)
    ensures Retain(codec, message, content, target).Rejected? <==>
      || ToolIds(content).None?
      || (ToolUses(content) != [] && (target.provider != "anthropic" || target.endpoint == "" || target.model == ""))
    ensures ToolUses(content) == [] ==> Retain(codec, message, content, target) == Retained(message)
  {
    IdsAreToolUses(content);
    if ToolUses(content) == [] { NoUsesNoIds(content); }
  }

  lemma NoUsesNoIds<J>(content: seq<Block<J>>)
    requires ToolUses(content) == []
    ensures ToolIds(content) == Some([])
  {
    IdsAreToolUses(content);
    forall i | 0 <= i < |content| ensures !content[i].ToolUse? { NoneIsUse(content, i); }
  }

  lemma {:induction false} NoneIsUse<J>(content: seq<Block<J>>, i: nat)
    requires ToolUses(content) == [] && i < |content|
    ensures !content[i].ToolUse?
  {
    if i < |content| - 1 { NoneIsUse(content[..|content| - 1], i); }
  }

  /** The ids are those of the tool uses, place by place. */
  lemma {:induction false} IdsInOrder<J>(content: seq<Block<J>>, k: nat)
    requires k < |ToolUses(content)|
    ensures |IdsOf(content)| == |ToolUses(content)|
    ensures ToolUses(content)[k].ToolUse? && IdsOf(content)[k] == ToolUses(content)[k].id.GetOr("")
  {
    IdsAreToolUses(content);
    var front := content[..|content| - 1];
    IdsAreToolUses(front);
    if k < |ToolUses(front)| { IdsInOrder(front, k); }
  }

  /** The tool uses of two lists end to end are those of the one, then those of the other. */
  lemma {:induction false} ToolUsesInOrder<J>(one: seq<Block<J>>, other: seq<Block<J>>)
    ensures ToolUses(one + other) == ToolUses(one) + ToolUses(other)
  {
    if other == [] {
      assert one + other == one;
    } else {
      var n := |other| - 1;
      ToolUsesInOrder(one, other[..n]);
      assert (one + other)[..|one| + n] == one + other[..n];
    }
  }

  /** A call of one tool use: of type function, with its id, its name, and arguments that parse to
      its input. */
  predicate Mirrors<J(==)>(codec: Codec<J>, call: Call, id: Option<string>, name: Option<string>, input: J) {
    && call.isFunction && call.id == id && call.name == name
    && call.arguments.Some? && codec.parse(call.arguments.value) == Some(input)
  }

  /** What a receipt must be to vouch for a list, each point of it: of this version, with a route
      (the target's, when one is asked for), its digest that of its text, which reads as a list of
      objects, with the receipt's ids and the message's calls. */
  lemma VouchesExactly<J>(codec: Codec<J>, message: Message, target: Option<Target>, content: seq<Block<J>>)
    ensures Validated(codec, message, target) == Some(content) <==>
      && message.receipt.Some? && message.receipt.value.Receipt?
      && var r := message.receipt.value;
         && r.version == 1 && r.route.Some? && (target.Some? ==> RouteOf(codec, target.value) == r.route)
         && r.digest == codec.digest(r.json) && codec.decode(r.json) == Some(content)
         && AllObjects(content) && ToolIds(content) == Some(r.toolIds) && CallsMatch(codec, message, content)
  {
  }

  /** On its own route and for its own results a kept list of objects is replayed exactly when the
      message has as many calls as tool uses and each mirrors its own: one call that differs in its
      type, id, name or input stops the replay of the whole list. */
  lemma MirroredCallsReplay<J(!new)>(codec: Codec<J>, message: Message, content: seq<Block<J>>, target: Target)
    requires Faithful(codec) && AllObjects(content) && ToolUses(content) != []
    requires Retain(codec, message, content, target).Retained?
    ensures var kept, uses := Retain(codec, message, content, target).message, ToolUses(content);
      Replay(codec, kept, target, IdsOf(content)) == Some(content) <==>
        && message.calls.Some? && |message.calls.value| == |uses|
        && forall i :: 0 <= i < |uses| ==>
             uses[i].ToolUse? && Mirrors(codec, message.calls.value[i], uses[i].id, uses[i].name, uses[i].input)
  {
    RetainThenReplay(codec, message, content, target, target, IdsOf(content));
  }

  /** A validated receipt whose text is changed under its digest vouches for nothing. */
  lemma ChangedTextIsRefused<J(!new)>(codec: Codec<J>, message: Message, target: Option<Target>, json: string)
    requires Faithful(codec) && Validated(codec, message, target).Some? && json != message.receipt.value.json
    ensures Validated(codec, message.(receipt := Some(message.receipt.value.(json := json))), target).None?
  {
  }

  // ---- retiring reasoning ----

  predicate Reasoning<J>(block: Block<J>) {
    block.Thinking? || block.RedactedThinking?
  }

  function WithoutReasoning<J>(content: seq<Block<J>>): seq<Block<J>> {
    if content == [] then []
    else WithoutReasoning(content[..|content| - 1]) +
         (if Reasoning(content[|content| - 1]) then [] else [content[|content| - 1]])
  }

  function ReasoningCount<J>(content: seq<Block<J>>): nat {
    if content == [] then 0
    else ReasoningCount(content[..|content| - 1]) + (if Reasoning(content[|content| - 1]) then 1 else 0)
  }

  /** Only reasoning goes. */
  lemma {:induction false} OnlyReasoningGoes<J>(content: seq<Block<J>>)
    ensures forall b :: b in WithoutReasoning(content) <==> b in content && !b.Thinking? && !b.RedactedThinking?
  {
    if content != [] {
      var front, last := content[..|content| - 1], content[|content| - 1];
      OnlyReasoningGoes(front);
      assert content == front + [last];
    }
  }

  /** Each list is judged block by block, in order and as often as a block occurs. */
  lemma {:induction false} RetiringKeepsOrder<J>(one: seq<Block<J>>, other: seq<Block<J>>)
    ensures WithoutReasoning(one + other) == WithoutReasoning(one) + WithoutReasoning(other)
  {
    if other == [] {
      assert one + other == one;
    } else {
      var n := |other| - 1;
      RetiringKeepsOrder(one, other[..n]);
      assert (one + other)[..|one| + n] == one + other[..n];
    }
  }

  lemma RetiringOne<J>(block: Block<J>)
    ensures WithoutReasoning([block]) == if Reasoning(block) then [] else [block]
  {
    assert [block][..0] == [];
  }

  lemma {:induction false} ReasoningIsCounted<J>(content: seq<Block<J>>)
    ensures |WithoutReasoning(content)| == |content| - ReasoningCount(content)
    ensures ReasoningCount(content) == 0 ==> WithoutReasoning(content) == content
  {
    if content != [] {
      var front, last := content[..|content| - 1], content[|content| - 1];
      ReasoningIsCounted(front);
      assert content == front + [last];
    }
  }

  /** The rest keeps its order: the ids and the tool uses are those they were. */
  lemma {:induction false} RetiringKeepsTheRest<J>(content: seq<Block<J>>)
    ensures ToolUses(WithoutReasoning(content)) == ToolUses(content)
    ensures IdsOf(WithoutReasoning(content)) == IdsOf(content)
  {
    if content != [] {
      var front, last := content[..|content| - 1], content[|content| - 1];
      RetiringKeepsTheRest(front);
      var kept := WithoutReasoning(front);
      if Reasoning(last) {
        assert kept + [] == kept && ToolUses(front) + [] == ToolUses(front) && IdsOf(front) + [] == IdsOf(front);
      } else {
        assert (kept + [last])[..|kept|] == kept;
      }
    }
  }

  function Retired<J(==)>(codec: Codec<J>, message: Message): (Message, nat) {
    match Validated(codec, message, None)
    case None => (message, 0)
    case Some(content) =>
      var count := ReasoningCount(content);
      if count == 0 then (message, 0)
      else
        var json := codec.encode(WithoutReasoning(content));
        (message.(receipt := Some(message.receipt.value.(json := json, digest := codec.digest(json)))), count)
  }

  lemma {:induction false} NothingLeft<J>(content: seq<Block<J>>)
    ensures ReasoningCount(WithoutReasoning(content)) == 0
  {
    if content != [] {
      var front, last := content[..|content| - 1], content[|content| - 1];
      NothingLeft(front);
      var kept := WithoutReasoning(front);
      if Reasoning(last) {
        assert kept + [] == kept;
      } else {
        assert (kept + [last])[..|kept|] == kept;
      }
    }
  }

  lemma {:induction false} RestIsClean<J>(content: seq<Block<J>>)
    ensures AllObjects(content) ==> AllObjects(WithoutReasoning(content))
    ensures ExactIds(content) ==> ExactIds(WithoutReasoning(content))
  {
    if content != [] {
      var front, last := content[..|content| - 1], content[|content| - 1];
      RestIsClean(front);
      assert AllObjects(content) ==> AllObjects(front) && !last.Loose?;
      assert ExactIds(content) ==> ExactIds(front);
    }
  }

  lemma RestValidates<J(!new)>(codec: Codec<J>, content: seq<Block<J>>)
    ensures AllObjects(content) ==> AllObjects(WithoutReasoning(content))
    ensures ToolIds(content).Some? ==> ToolIds(WithoutReasoning(content)) == ToolIds(content)
    ensures forall m: Message :: CallsMatch(codec, m, WithoutReasoning(content)) == CallsMatch(codec, m, content)
  {
    RestIsClean(content);
    RetiringKeepsTheRest(content);
  }

  /** The retired receipt still validates, with the rest of the content and the same ids. */
  lemma RetiredStillValidates<J(!new)>(codec: Codec<J>, message: Message, target: Option<Target>)
    requires Faithful(codec) && Validated(codec, message, target).Some?
    ensures var content, after := Validated(codec, message, target).value, Retired(codec, message).0;
      && Validated(codec, after, target) == Some(WithoutReasoning(content))
      && after.receipt.value.toolIds == message.receipt.value.toolIds
      && Retired(codec, message).1 == ReasoningCount(content)
  {
    var content := Validated(codec, message, target).value;
    var rest := WithoutReasoning(content);
    ReasoningIsCounted(content);
    RestValidates(codec, content);
    assert Validated(codec, message, None) == Some(content);
    assert codec.decode(codec.encode(rest)) == Some(rest);
  }

  lemma OtherListOtherDigest<J(!new)>(codec: Codec<J>, content: seq<Block<J>>, other: seq<Block<J>>, json: string)
    requires Faithful(codec) && codec.decode(json) == Some(content) && other != content
    ensures codec.digest(codec.encode(other)) != codec.digest(json)
  {
    assert codec.decode(codec.encode(other)) == Some(other);
  }

  /** Nothing is left to retire, and a change gives the receipt a digest it did not have. */
  lemma RetiredOnce<J(!new)>(codec: Codec<J>, message: Message)
    requires Faithful(codec) && Validated(codec, message, None).Some?
    ensures var count, after := Retired(codec, message).1, Retired(codec, message).0;
      && Retired(codec, after) == (after, 0)
      && (count > 0 <==> after.receipt.value.digest != message.receipt.value.digest)
  {
    var content := Validated(codec, message, None).value;
    RetiredStillValidates(codec, message, None);
    NothingLeft(content);
    if ReasoningCount(content) > 0 {
      ReasoningIsCounted(content);
      OtherListOtherDigest(codec, content, WithoutReasoning(content), message.receipt.value.json);
    }
  }

  /** A message that is rewritten in place. */
  class MessageCell {
    var message: Message

    constructor (message: Message)
      ensures this.message == message
    {
      this.message := message;
    }

    method NativeReasoningBlocks<J(==)>(codec: Codec<J>, retire: bool) returns (count: nat)
      modifies this
      ensures count == Retired(codec, old(message)).1
      ensures message == if retire then Retired(codec, old(message)).0 else old(message)
    {
      var validated := Validated(codec, message, None);
      if validated.None? { return 0; }
      var content := validated.value;
      var kept: seq<Block<J>> := [];
      for i := 0 to |content|
        invariant kept == WithoutReasoning(content[..i])
      {
        assert content[..i + 1][..i] == content[..i];
        if !Reasoning(content[i]) { kept := kept + [content[i]]; }
      }
      assert content[..|content|] == content;
      KeptCount(content);
      count := |content| - |kept|;
      if retire && count > 0 {
        var json := codec.encode(kept);
        message := message.(receipt := Some(message.receipt.value.(json := json, digest := codec.digest(json))));
      }
    }
  }

  lemma KeptCount<J>(content: seq<Block<J>>)
    ensures |WithoutReasoning(content)| + ReasoningCount(content) == |content|
  {
    ReasoningIsCounted(content);
  }

  // ---- replayed and consumed ----

  class ReplayScope {
    var replayed: seq<string>

    constructor ()
      ensures replayed == []
    {
      replayed := [];
    }

    method NativeContentForReplay<J(==)>(
        codec: Codec<J>, message: Message, target: Target, resultIds: seq<string>)
        returns (content: Option<seq<Block<J>>>)
      modifies this
      ensures content == Replay(codec, message, target, resultIds)
      ensures replayed == if content.Some? then Noted(old(replayed), message.receipt.value.digest) else old(replayed)
    {
      var validated := Validated(codec, message, Some(target));
      if validated.None? { return None; }
      if ToolIds(validated.value) != Some(resultIds) { return None; }
      var digest := message.receipt.value.digest;
      if digest !in replayed { replayed := replayed + [digest]; }
      return validated;
    }

    method MarkReplayedReceiptsConsumed(message: Message) returns (out: Message)
      ensures out == Marked(replayed, message)
    {
      out := message;
      if replayed != [] { out := message.(consumed := Some(Deduplicated(replayed))); }
    }
  }

  function Noted(replayed: seq<string>, digest: string): seq<string> {
    if digest in replayed then replayed else replayed + [digest]
  }

  function Deduplicated(items: seq<string>): seq<string> {
    if items == [] then []
    else Noted(Deduplicated(items[..|items| - 1]), items[|items| - 1])
  }

  lemma DeduplicatedKeeps(items: seq<string>)
    ensures Distinct(Deduplicated(items)) && forall d :: d in Deduplicated(items) <==> d in items
  {
    if items != [] {
      DeduplicatedKeeps(items[..|items| - 1]);
      assert items == items[..|items| - 1] + [items[|items| - 1]];
    }
  }

  function Marked(replayed: seq<string>, message: Message): Message {
    if replayed == [] then message else message.(consumed := Some(Deduplicated(replayed)))
  }

  predicate ConsumedAfter(messages: seq<Message>, end: nat, digest: string) {
    exists k :: end < k < |messages| && messages[k].consumed.Some? && digest in messages[k].consumed.value
  }

  predicate Active<J(==)>(codec: Codec<J>, messages: seq<Message>, index: int, end: nat) {
    && 0 <= index < |messages| && Validated(codec, messages[index], None).Some?
    && !ConsumedAfter(messages, end, messages[index].receipt.value.digest)
  }

  method AnthropicToolUnitActive<J(==)>(
      codec: Codec<J>, messages: seq<Message>, index: int, end: nat) returns (active: bool)
    ensures active == Active(codec, messages, index, end)
  {
    if index < 0 || index >= |messages| { return false; }
    if Validated(codec, messages[index], None).None? { return false; }
    var digest := messages[index].receipt.value.digest;
    var k := end + 1;
    while k < |messages|
      invariant end < k
      invariant forall j :: end < j < k && j < |messages| ==>
        !(messages[j].consumed.Some? && digest in messages[j].consumed.value)
    {
      if messages[k].consumed.Some? && digest in messages[k].consumed.value { return false; }
      k := k + 1;
    }
    return true;
  }

  /** Retiring reasoning reopens the unit: what closed it named the old digest. */
  lemma RetiringReopens<J(!new)>(codec: Codec<J>, messages: seq<Message>, index: nat, end: nat)
    requires Faithful(codec) && index < |messages| && index <= end
    requires Validated(codec, messages[index], None).Some?
    ensures var retired := Retired(codec, messages[index]).0;
      Active(codec, messages[index := retired], index, end) <==>
        !ConsumedAfter(messages, end, retired.receipt.value.digest)
  {
    RetiredStillValidates(codec, messages[index], None);
    var after := messages[index := Retired(codec, messages[index]).0];
    assert forall k :: end < k < |messages| ==> after[k] == messages[k];
  }

  /** The answer to a replay closes exactly the units whose receipts were replayed. */
  lemma AnswerClosesReplayed<J(!new)>(
      codec: Codec<J>, messages: seq<Message>, index: nat, end: nat, replayed: seq<string>, answer: Message)
    requires index < |messages| && end < |messages| && Validated(codec, messages[index], None).Some? &&
      answer.consumed.None?
    ensures Active(codec, messages + [Marked(replayed, answer)], index, end) <==>
      Active(codec, messages, index, end) && messages[index].receipt.value.digest !in replayed
  {
    var longer := messages + [Marked(replayed, answer)];
    var digest := messages[index].receipt.value.digest;
    DeduplicatedKeeps(replayed);
    assert longer[index] == messages[index];
    assert forall k :: end < k < |messages| ==> longer[k] == messages[k];
    assert longer[|messages|] == Marked(replayed, answer);
    if ConsumedAfter(messages, end, digest) {
      var k :| end < k < |messages| && messages[k].consumed.Some? && digest in messages[k].consumed.value;
      assert longer[k].consumed.Some?;
    }
    if digest in replayed {
      assert longer[|messages|].consumed.Some? && digest in longer[|messages|].consumed.value;
    }
  }

  function Scrubbed(messages: seq<Message>): (cleaned: seq<Message>)
    ensures |cleaned| == |messages|
    ensures forall i :: 0 <= i < |messages| ==> cleaned[i] == Message(messages[i].calls, None, None)
  {
    if messages == [] then []
    else Scrubbed(messages[..|messages| - 1]) + [Message(messages[|messages| - 1].calls, None, None)]
  }

  /** Before another route nothing of the custody is left: no replay, no active unit. */
  lemma ScrubbedHasNoCustody<J(!new)>(
      codec: Codec<J>, messages: seq<Message>, i: nat, end: nat, target: Target, resultIds: seq<string>)
    requires i < |messages|
    ensures Replay(codec, Scrubbed(messages)[i], target, resultIds).None? && !Active(codec, Scrubbed(messages), i, end)
  {
  }
}
