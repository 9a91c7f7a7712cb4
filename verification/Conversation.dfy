/** Conversations as JSON values, and what dropping messages from one preserves. */
module Conversation {
  import opened Options

  /** A content block: its type, its thinking text, its signature field if present, and
      every other field. */
  datatype Block = Block(kind: string, thinking: string, signature: Option<string>, rest: map<string, string>)

  /** A message's content: an array of blocks, or anything else. */
  datatype Content = Blocks(blocks: seq<Block>) | Other(text: string)

  datatype Message = Message(role: string, content: Content, reasoning: Option<string>)

  predicate IsThinking(b: Block) { b.kind == "thinking" }

  predicate IsToolUse(b: Block) { b.kind == "tool_use" }

  predicate IsAssistant(m: Message) { m.role == "assistant" }

  predicate HasToolResult(m: Message) {
    && m.role == "user"
    && m.content.Blocks?
    && exists i :: 0 <= i < |m.content.blocks| && m.content.blocks[i].kind == "tool_result"
  }

  /** A user message with a tool result among its blocks, told from the types alone. */
  ghost predicate AnswersTools(m: Message) {
    m.role == "user" && m.content.Blocks? && exists b :: b in m.content.blocks && b.kind == "tool_result"
  }

  lemma AnswersToolsIff(m: Message)
    ensures HasToolResult(m) <==> AnswersTools(m)
  {
    if AnswersTools(m) {
      var b :| b in m.content.blocks && b.kind == "tool_result";
      var i :| 0 <= i < |m.content.blocks| && m.content.blocks[i] == b;
    }
  }

  const PLACEHOLDER := Blocks([Block("text", "", None, map["text" := ""])])

  /** Whether dropping message `i` would leave tool results without their tool use, or two
      user messages in a row. */
  predicate WouldOrphanToolResults(msgs: seq<Message>, i: nat) {
    || (0 < i && i + 1 < |msgs| && msgs[i - 1].role == "user" && msgs[i + 1].role == "user")
    || (i + 1 < |msgs| && HasToolResult(msgs[i + 1]))
  }

  /** Rewriting assistant messages in place does not change the verdict. */
  lemma OrphanCheckStable(a: seq<Message>, b: seq<Message>, i: nat)
    requires |a| == |b|
    requires forall j :: 0 <= j < |a| ==> a[j].role == b[j].role && (!IsAssistant(a[j]) ==> a[j] == b[j])
    ensures WouldOrphanToolResults(a, i) == WouldOrphanToolResults(b, i)
  {
  }

  // ----- Dropping messages ----------------------------------------------------------------

  /** The first `n` messages without those at the dropped indexes. */
  function Without(msgs: seq<Message>, dropped: set<nat>, n: nat): seq<Message>
    requires n <= |msgs|
  {
    if n == 0 then []
    else Without(msgs, dropped, n - 1) + if n - 1 in dropped then [] else [msgs[n - 1]]
  }

  lemma {:induction false} WithoutNone(msgs: seq<Message>, dropped: set<nat>, n: nat)
    requires n <= |msgs| && forall d :: d in dropped ==> d >= n
    ensures Without(msgs, dropped, n) == msgs[..n]
  {
    if n > 0 {
      WithoutNone(msgs, dropped, n - 1);
    }
  }

  /** Deleting a position below all those already dropped. */
  lemma {:induction false} DropLower(msgs: seq<Message>, dropped: set<nat>, i: nat, n: nat)
    requires i < n <= |msgs| && forall d :: d in dropped ==> d > i
    ensures var w := Without(msgs, dropped, n);
            && |w| > i
            && Without(msgs, dropped + {i}, n) == w[..i] + w[i + 1..]
  {
    if n == i + 1 {
      WithoutNone(msgs, dropped, n);
      WithoutNone(msgs, dropped + {i}, i);
    } else {
      DropLower(msgs, dropped, i, n - 1);
    }
  }

  function IndexSet(indexes: seq<nat>): set<nat> {
    set i | i in indexes
  }

  /** dropMessagesByIndex: deletes from the highest index down, so that the lower ones
      stay right. The callers collect the indexes in ascending order. */
  method DropMessagesByIndex(msgs: seq<Message>, indexes: seq<nat>) returns (r: seq<Message>)
    requires forall k :: 0 <= k < |indexes| ==> indexes[k] < |msgs|
    requires forall k, l :: 0 <= k < l < |indexes| ==> indexes[k] < indexes[l]
    ensures r == Without(msgs, set i | i in indexes, |msgs|)
  {
    r := msgs;
    WithoutNone(msgs, {}, |msgs|);
    assert IndexSet(indexes[|indexes|..]) == {};
    var k := |indexes|;
    while k > 0
      invariant 0 <= k <= |indexes|
      invariant r == Without(msgs, IndexSet(indexes[k..]), |msgs|)
    {
      k := k - 1;
      var idx := indexes[k];
      DropLower(msgs, IndexSet(indexes[k + 1..]), idx, |msgs|);
      assert IndexSet(indexes[k..]) == IndexSet(indexes[k + 1..]) + {idx} by {
        assert indexes[k..] == [idx] + indexes[k + 1..];
      }
      r := r[..idx] + r[idx + 1..];
    }
    assert indexes[0..] == indexes;
  }

  // ----- Plans: in-place edits plus drops ----------------------------------------------------

  /** What a rewriting pass decides: a new value for each message, and which to drop. */
  datatype Plan = Plan(messages: seq<Message>, dropped: set<nat>)

  function Carry(p: Plan): seq<Message> {
    Without(p.messages, p.dropped, |p.messages|)
  }

  /** Roles are kept, only assistant messages are edited, and only assistant messages
      that nothing depends on are dropped. */
  ghost predicate Careful(msgs: seq<Message>, p: Plan) {
    && |p.messages| == |msgs|
    && (forall i :: 0 <= i < |msgs| ==> p.messages[i].role == msgs[i].role)
    && (forall i :: 0 <= i < |msgs| ==> msgs[i].role != "assistant" ==> p.messages[i] == msgs[i])
    && (forall i :: i in p.dropped ==> i < |msgs| && msgs[i].role == "assistant" && !WouldOrphanToolResults(msgs, i))
  }

  /** Where message `i` of the input stands in the output. */
  function Position(p: Plan, i: nat): nat
    requires i <= |p.messages|
  {
    |Without(p.messages, p.dropped, i)|
  }

  lemma {:induction false} KeptAt(msgs: seq<Message>, dropped: set<nat>, i: nat, n: nat)
    requires i < n <= |msgs| && i !in dropped
    ensures var w := Without(msgs, dropped, n);
            |Without(msgs, dropped, i)| < |w| && w[|Without(msgs, dropped, i)|] == msgs[i]
    ensures |Without(msgs, dropped, i + 1)| == |Without(msgs, dropped, i)| + 1
  {
    if i + 1 < n {
      KeptAt(msgs, dropped, i, n - 1);
    }
  }

  /** Tool results stay with the message they answer: the user message still directly
      follows it. */
  lemma ToolResultsStay(msgs: seq<Message>, p: Plan, i: nat)
    requires Careful(msgs, p)
    requires i + 1 < |msgs| && msgs[i].role == "assistant" && AnswersTools(msgs[i + 1])
    ensures var out, at := Carry(p), Position(p, i);
            && at + 1 < |out|
            && out[at] == p.messages[i]
            && out[at + 1] == msgs[i + 1]
  {
    AnswersToolsIff(msgs[i + 1]);
    hide HasToolResult;
    assert i !in p.dropped && i + 1 !in p.dropped;
    KeptAt(p.messages, p.dropped, i, |msgs|);
    KeptAt(p.messages, p.dropped, i + 1, |msgs|);
  }

  ghost predicate Alternating(msgs: seq<Message>) {
    && (forall i :: 0 <= i < |msgs| ==> msgs[i].role == "user" || msgs[i].role == "assistant")
    && (forall i :: 0 <= i < |msgs| - 1 ==> msgs[i].role != msgs[i + 1].role)
  }

  /** The check asks for neither too much nor too little: in an alternating conversation, deleting
      an assistant message does harm exactly when the check says so. */
  lemma OrphanCheckExact(msgs: seq<Message>, i: nat)
    requires i < |msgs| && Alternating(msgs) && msgs[i].role == "assistant"
    ensures WouldOrphanToolResults(msgs, i) <==>
            (i + 1 < |msgs| && AnswersTools(msgs[i + 1])) || !Alternating(msgs[..i] + msgs[i + 1..])
  {
    if i + 1 < |msgs| {
      AnswersToolsIff(msgs[i + 1]);
    }
    hide HasToolResult, AnswersTools;
    var w := msgs[..i] + msgs[i + 1..];
    if 0 < i && i + 1 < |msgs| {
      UsersAround(msgs, i);
      assert w[i - 1] == msgs[i - 1] && w[i - 1 + 1] == msgs[i + 1];
    } else {
      forall j | 0 <= j < |w| - 1 ensures w[j].role != w[j + 1].role {
        var k := if i == 0 then j + 1 else j;
        assert w[j] == msgs[k] && w[j + 1] == msgs[k + 1];
      }
    }
  }

  /** In an alternating conversation only the first and the last message can be dropped. */
  lemma DropsAtTheEnds(msgs: seq<Message>, p: Plan, i: nat)
    requires Careful(msgs, p) && Alternating(msgs) && i in p.dropped
    ensures i == 0 || i == |msgs| - 1
  {
    hide HasToolResult;
    if 0 < i && i + 1 < |msgs| {
      UsersAround(msgs, i);
    }
  }

  lemma UsersAround(msgs: seq<Message>, i: nat)
    requires Alternating(msgs) && 0 < i && i + 1 < |msgs|
    ensures msgs[i].role == "assistant" ==> msgs[i - 1].role == "user" && msgs[i + 1].role == "user"
  {
    assert msgs[i - 1].role != msgs[i - 1 + 1].role;
  }

  lemma {:induction false} AlternationKept(msgs: seq<Message>, p: Plan, n: nat)
    requires Careful(msgs, p) && Alternating(msgs) && n <= |msgs|
    ensures var w := Without(p.messages, p.dropped, n);
            && Alternating(w)
            && (1 < n < |msgs| ==> w != [])
            && (n > 0 && n < |msgs| && w != [] ==> w[|w| - 1].role == msgs[n - 1].role)
  {
    hide WouldOrphanToolResults;
    if n > 0 {
      AlternationKept(msgs, p, n - 1);
      if n - 1 in p.dropped {
        DropsAtTheEnds(msgs, p, n - 1);
      } else if n > 1 {
        assert msgs[n - 2].role != msgs[n - 2 + 1].role;
      }
    }
  }

  lemma AlternationStays(msgs: seq<Message>, p: Plan)
    requires Careful(msgs, p) && Alternating(msgs)
    ensures Alternating(Carry(p))
  {
    hide Careful, Alternating, Without;
    assert |p.messages| == |msgs| by {
      CarefulLength(msgs, p);
    }
    AlternationKept(msgs, p, |msgs|);
  }

  lemma CarefulLength(msgs: seq<Message>, p: Plan)
    requires Careful(msgs, p)
    ensures |p.messages| == |msgs|
  {
  }

  /** A plan that drops nothing carries every message to its own place. */
  lemma {:induction false} NoDropCarries(p: Plan, n: nat)
    requires n <= |p.messages|
    ensures |Without(p.messages, p.dropped, n)| <= n
    ensures |Without(p.messages, p.dropped, n)| == n <==> forall i :: 0 <= i < n ==> i !in p.dropped
    ensures |Without(p.messages, p.dropped, n)| == n ==> Without(p.messages, p.dropped, n) == p.messages[..n]
  {
    if n > 0 {
      NoDropCarries(p, n - 1);
    }
  }
}
