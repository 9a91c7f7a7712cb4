/** Rewriting whole conversations: the request pass, the provider-switch pass and the
    response pass. Only which messages and blocks come out is modelled; a body whose
    `messages` field is missing or no array is returned unchanged. */
module ThinkingRewrite {
  import opened Options
  import opened Signatures
  import opened Conversation
  import opened ThinkingBlocks

  // ----- The request pass on values ----------------------------------------------------------

  predicate HasBlocks(m: Message) {
    IsAssistant(m) && m.content.Blocks?
  }

  predicate IsEmptied(g: Signer, m: Message) {
    HasBlocks(m) && Collected(g, m.content.blocks) == []
  }

  /** Message `i` after the pass, if it is not dropped. */
  function Edited(g: Signer, msgs: seq<Message>, i: nat): (m: Message)
    requires i < |msgs|
    ensures m.role == msgs[i].role && (!IsAssistant(msgs[i]) ==> m == msgs[i])
  {
    var m := msgs[i];
    if !HasBlocks(m) then m
    else if IsEmptied(g, m) then (if WouldOrphanToolResults(msgs, i) then m.(content := PLACEHOLDER) else m)
    else m.(content := Blocks(Processed(g, m.content.blocks)))
  }

  predicate IsDropped(g: Signer, msgs: seq<Message>, i: nat)
    requires i < |msgs|
  {
    IsEmptied(g, msgs[i]) && !WouldOrphanToolResults(msgs, i)
  }

  predicate IsReplaced(g: Signer, msgs: seq<Message>, i: nat)
    requires i < |msgs|
  {
    IsEmptied(g, msgs[i]) && WouldOrphanToolResults(msgs, i)
  }

  function RequestPlan(g: Signer, msgs: seq<Message>): (p: Plan)
    ensures |p.messages| == |msgs|
    ensures forall i :: 0 <= i < |msgs| ==> p.messages[i] == Edited(g, msgs, i)
    ensures forall i :: i in p.dropped <==> 0 <= i < |msgs| && IsDropped(g, msgs, i)
  {
    Plan(seq(|msgs|, i requires 0 <= i < |msgs| => Edited(g, msgs, i)),
         set i: nat | 0 <= i < |msgs| && IsDropped(g, msgs, i))
  }

  /** The messages a request leaves with. */
  function Process(g: Signer, msgs: seq<Message>): seq<Message> {
    Carry(RequestPlan(g, msgs))
  }

  lemma RequestPlanCareful(g: Signer, msgs: seq<Message>)
    ensures Careful(msgs, RequestPlan(g, msgs))
  {
    hide WouldOrphanToolResults, Collected, Processed;
  }

  /** Every user message answering an assistant message still directly follows it. */
  lemma RequestKeepsToolResults(g: Signer, msgs: seq<Message>, i: nat)
    requires i + 1 < |msgs| && msgs[i].role == "assistant" && AnswersTools(msgs[i + 1])
    ensures var out, at := Process(g, msgs), Position(RequestPlan(g, msgs), i);
            at + 1 < |out| && out[at] == Edited(g, msgs, i) && out[at + 1] == msgs[i + 1]
  {
    hide Careful, Carry, Edited, IsDropped, AnswersTools;
    RequestPlanCareful(g, msgs);
    ToolResultsStay(msgs, RequestPlan(g, msgs), i);
  }

  lemma RequestKeepsAlternation(g: Signer, msgs: seq<Message>)
    requires Alternating(msgs)
    ensures Alternating(Process(g, msgs))
  {
    hide Careful, Carry, Alternating;
    RequestPlanCareful(g, msgs);
    AlternationStays(msgs, RequestPlan(g, msgs));
  }

  /** A message with a block that is not thinking is never dropped or replaced, and those
      blocks, tool uses among them, come out in order, changed only in their signature. */
  lemma RequestKeepsOtherBlocks(g: Signer, msgs: seq<Message>, i: nat)
    requires i < |msgs| && msgs[i].role == "assistant" && msgs[i].content.Blocks?
    requires exists b :: b in msgs[i].content.blocks && b.kind != "thinking"
    ensures var blocks := msgs[i].content.blocks;
            var out, at := Process(g, msgs), Position(RequestPlan(g, msgs), i);
            && at < |out| && out[at].role == "assistant" && out[at].content.Blocks?
            && |Select(out[at].content.blocks, false)| == |Select(blocks, false)|
            && forall k :: 0 <= k < |Select(blocks, false)| ==>
                 var was := Select(blocks, false)[k];
                 Select(out[at].content.blocks, false)[k] == if was.kind == "tool_use" then was.(signature := None) else was
  {
    hide Select, Processed, Collected, WouldOrphanToolResults;
    var blocks := msgs[i].content.blocks;
    SelectedIff(blocks);
    OthersSurvive(g, blocks);
    ProcessedMembers(g, blocks, Select(Processed(g, blocks), false)[0]);
    assert Select(Processed(g, blocks), false)[0] in Select(Processed(g, blocks), false);
    var p := RequestPlan(g, msgs);
    KeptAt(p.messages, p.dropped, i, |msgs|);
  }

  /** A message that keeps no block goes, unless that would strand tool results or put two user messages
      in a row; then an empty text takes the place of its content. */
  lemma RequestDropsEmptied(g: Signer, msgs: seq<Message>, i: nat)
    requires i < |msgs| && msgs[i].role == "assistant" && msgs[i].content.Blocks?
    requires forall b :: b in msgs[i].content.blocks ==> b.kind == "thinking" && Resolve(g, b) == ""
    ensures var p, out := RequestPlan(g, msgs), Process(g, msgs);
            if WouldOrphanToolResults(msgs, i) then
              && Position(p, i) < |out| && Position(p, i + 1) == Position(p, i) + 1
              && out[Position(p, i)] == msgs[i].(content := Blocks([Block("text", "", None, map["text" := ""])]))
            else Position(p, i + 1) == Position(p, i)
  {
    hide WouldOrphanToolResults, Resolve, Collected, Processed;
    var blocks := msgs[i].content.blocks;
    forall j | 0 <= j < |blocks| ensures !Kept(g, blocks[j]) {
      assert blocks[j] in blocks;
    }
    NoneCollected(g, blocks);
    var p := RequestPlan(g, msgs);
    if WouldOrphanToolResults(msgs, i) {
      KeptAt(p.messages, p.dropped, i, |msgs|);
    }
  }

  // ----- Conservation of blocks -------------------------------------------------------------------

  function BlockCount(m: Message): nat {
    if HasBlocks(m) then |m.content.blocks| else 0
  }

  function TotalBlocks(msgs: seq<Message>): nat {
    if msgs == [] then 0 else TotalBlocks(msgs[..|msgs| - 1]) + BlockCount(msgs[|msgs| - 1])
  }

  /** The counter DroppedBlocks after the first `n` messages. */
  function DroppedBlocks(g: Signer, msgs: seq<Message>, n: nat): int
    requires n <= |msgs|
  {
    if n == 0 then 0
    else
      var m := msgs[n - 1];
      DroppedBlocks(g, msgs, n - 1) + if HasBlocks(m) then |m.content.blocks| - |Collected(g, m.content.blocks)| else 0
  }

  function Placeholders(g: Signer, msgs: seq<Message>, n: nat): nat
    requires n <= |msgs|
  {
    if n == 0 then 0 else Placeholders(g, msgs, n - 1) + if IsReplaced(g, msgs, n - 1) then 1 else 0
  }

  lemma TotalSnoc(msgs: seq<Message>, m: Message)
    ensures TotalBlocks(msgs + [m]) == TotalBlocks(msgs) + BlockCount(m)
  {
    assert (msgs + [m])[..|msgs|] == msgs;
  }

  lemma {:induction false} ConservedPrefix(g: Signer, msgs: seq<Message>, n: nat)
    requires n <= |msgs|
    ensures var p := RequestPlan(g, msgs);
            TotalBlocks(msgs[..n]) + Placeholders(g, msgs, n)
            == TotalBlocks(Without(p.messages, p.dropped, n)) + DroppedBlocks(g, msgs, n)
  {
    hide Collected, Processed, WouldOrphanToolResults, TotalBlocks, RequestPlan;
    var p := RequestPlan(g, msgs);
    if n > 0 {
      ConservedPrefix(g, msgs, n - 1);
      var m := msgs[n - 1];
      assert msgs[..n] == msgs[..n - 1] + [m];
      TotalSnoc(msgs[..n - 1], m);
      TotalSnoc(Without(p.messages, p.dropped, n - 1), p.messages[n - 1]);
      assert p.messages[n - 1] == Edited(g, msgs, n - 1);
      assert n - 1 in p.dropped <==> IsDropped(g, msgs, n - 1);
      var w := Without(p.messages, p.dropped, n - 1);
      assert Without(p.messages, p.dropped, n) == if IsDropped(g, msgs, n - 1) then w else w + [p.messages[n - 1]];
      assert |PLACEHOLDER.blocks| == 1;
      if HasBlocks(m) {
        ProcessedMembers(g, m.content.blocks, PLACEHOLDER.blocks[0]);
      }
    }
  }

  /** Assistant blocks in = blocks out other than placeholders + DroppedBlocks. */
  lemma BlocksConserved(g: Signer, msgs: seq<Message>)
    ensures TotalBlocks(msgs)
            == TotalBlocks(Process(g, msgs)) - Placeholders(g, msgs, |msgs|) + DroppedBlocks(g, msgs, |msgs|)
  {
    ConservedPrefix(g, msgs, |msgs|);
    assert msgs[..|msgs|] == msgs;
  }

  // ----- Idempotence ----------------------------------------------------------------------------------

  /** A message the pass leaves as it is, wherever it stands. */
  ghost predicate FixedMessage(g: Signer, m: Message) {
    HasBlocks(m) ==> FixedContent(g, m.content.blocks)
  }

  ghost predicate Settled(g: Signer, m: Message) {
    HasBlocks(m) && !IsEmptied(g, m) ==> AllStable(g, m.content.blocks) && !LateThinking(g, m.content.blocks)
  }

  lemma FixedMessageIff(g: Signer, msgs: seq<Message>, i: nat)
    requires i < |msgs|
    ensures !IsDropped(g, msgs, i) && Edited(g, msgs, i) == msgs[i] <==> FixedMessage(g, msgs[i])
  {
    PlaceholderStays(g);
    hide Collected, Processed, WouldOrphanToolResults;
  }

  lemma PlaceholderStays(g: Signer)
    ensures Collected(g, PLACEHOLDER.blocks) == PLACEHOLDER.blocks
    ensures FixedContent(g, PLACEHOLDER.blocks)
  {
    CollectedLength(g, PLACEHOLDER.blocks);
    NeedsReorderMeans(PLACEHOLDER.blocks);
    assert SignedAll(g, PLACEHOLDER.blocks) == PLACEHOLDER.blocks;
  }

  /** A pass is the identity exactly on conversations of fixed messages. */
  lemma PassIsIdentityIff(g: Signer, msgs: seq<Message>)
    ensures Process(g, msgs) == msgs <==> forall m :: m in msgs ==> FixedMessage(g, m)
  {
    hide Collected, Processed, WouldOrphanToolResults, Without, FixedMessage, Edited, IsDropped;
    var p := RequestPlan(g, msgs);
    NoDropCarries(p, |msgs|);
    assert p.messages[..|msgs|] == p.messages;
    PlaceholderStays(g);
    forall i | 0 <= i < |msgs| ensures !IsDropped(g, msgs, i) && Edited(g, msgs, i) == msgs[i] <==> FixedMessage(g, msgs[i]) {
      FixedMessageIff(g, msgs, i);
    }
    if forall m :: m in msgs ==> FixedMessage(g, m) {
      assert p.messages == msgs;
    }
    if Process(g, msgs) == msgs {
      forall m | m in msgs ensures FixedMessage(g, m) {
        var i :| 0 <= i < |msgs| && msgs[i] == m;
        assert i !in p.dropped && p.messages[i] == Edited(g, msgs, i);
      }
    }
  }

  lemma {:induction false} WithoutMembers(msgs: seq<Message>, dropped: set<nat>, n: nat, m: Message)
    requires n <= |msgs|
    ensures m in Without(msgs, dropped, n) <==> exists i: nat :: i < n && i !in dropped && msgs[i] == m
  {
    if n > 0 {
      WithoutMembers(msgs, dropped, n - 1, m);
    }
  }

  lemma EditedFixedIff(g: Signer, msgs: seq<Message>, i: nat)
    requires i < |msgs| && !IsDropped(g, msgs, i)
    ensures FixedMessage(g, Edited(g, msgs, i)) <==> Settled(g, msgs[i])
  {
    hide Collected, Processed, WouldOrphanToolResults, FixedContent, LateThinking, AllStable;
    PlaceholderStays(g);
    if HasBlocks(msgs[i]) && !IsEmptied(g, msgs[i]) {
      SecondPassIff(g, msgs[i].content.blocks);
    }
  }

  /** A second pass changes nothing exactly when, in every message that is neither dropped
      nor replaced, each kept signature resolves to itself and the content is not of the
      late-thinking family. */
  lemma IdempotentIff(g: Signer, msgs: seq<Message>)
    ensures Process(g, Process(g, msgs)) == Process(g, msgs)
            <==> forall i :: 0 <= i < |msgs| ==> Settled(g, msgs[i])
  {
    hide FixedMessage, Edited, IsDropped, Settled, Without;
    var p := RequestPlan(g, msgs);
    var out := Process(g, msgs);
    PassIsIdentityIff(g, out);
    if forall i :: 0 <= i < |msgs| ==> Settled(g, msgs[i]) {
      forall m | m in out ensures FixedMessage(g, m) {
        WithoutMembers(p.messages, p.dropped, |msgs|, m);
        var i: nat :| i < |msgs| && i !in p.dropped && p.messages[i] == m;
        EditedFixedIff(g, msgs, i);
      }
    }
    if forall m :: m in out ==> FixedMessage(g, m) {
      forall i | 0 <= i < |msgs| ensures Settled(g, msgs[i]) {
        if i in p.dropped {
          DroppedIsSettled(g, msgs, i);
        } else {
          WithoutMembers(p.messages, p.dropped, |msgs|, p.messages[i]);
          EditedFixedIff(g, msgs, i);
        }
      }
    }
  }

  lemma DroppedIsSettled(g: Signer, msgs: seq<Message>, i: nat)
    requires i < |msgs| && IsDropped(g, msgs, i)
    ensures Settled(g, msgs[i])
  {
  }

  /** Every signature that resolves is valid for the model and free of '#'. */
  ghost predicate ResolvesValid(g: Signer, m: Message) {
    HasBlocks(m) ==>
      forall i :: 0 <= i < |m.content.blocks| && IsThinking(m.content.blocks[i]) && Kept(g, m.content.blocks[i]) ==>
                    IsValidSignature(g.model, Resolve(g, m.content.blocks[i])) && '#' !in Resolve(g, m.content.blocks[i])
  }

  /** With valid signatures throughout, only the late-thinking family stands in the way of
      idempotence. */
  lemma IdempotentWhenValid(g: Signer, msgs: seq<Message>)
    requires forall i :: 0 <= i < |msgs| ==> ResolvesValid(g, msgs[i])
    ensures Process(g, Process(g, msgs)) == Process(g, msgs)
            <==> forall i :: 0 <= i < |msgs| && HasBlocks(msgs[i]) ==> !LateThinking(g, msgs[i].content.blocks)
  {
    hide Process, LateThinking, Resolve, IsValidSignature, Kept, IsEmptied;
    IdempotentIff(g, msgs);
    forall i | 0 <= i < |msgs| && HasBlocks(msgs[i])
      ensures Settled(g, msgs[i]) <==> !LateThinking(g, msgs[i].content.blocks)
    {
      assert ResolvesValid(g, msgs[i]);
      if IsEmptied(g, msgs[i]) {
        EmptiedIsNotLate(g, msgs[i]);
      }
    }
  }

  lemma EmptiedIsNotLate(g: Signer, m: Message)
    requires IsEmptied(g, m)
    ensures !LateThinking(g, m.content.blocks)
  {
    hide Collected, Kept, Signed;
    var blocks := m.content.blocks;
    forall j | 0 <= j < |blocks| ensures !Kept(g, blocks[j]) {
      CollectedMembers(g, blocks, Signed(g, blocks[j]));
    }
  }

  // ----- The provider-switch pass on values ---------------------------------------------------------

  function WithoutReasoning(m: Message): Message {
    m.(reasoning := None)
  }

  predicate OnlyThinking(m: Message) {
    m.content.Blocks? && m.content.blocks != [] && Select(m.content.blocks, false) == []
  }

  function Stripped(msgs: seq<Message>, i: nat): (m: Message)
    requires i < |msgs|
    ensures m.role == msgs[i].role && (!IsAssistant(msgs[i]) ==> m == msgs[i])
  {
    var m := msgs[i];
    if !IsAssistant(m) then m
    else if !m.content.Blocks? || Select(m.content.blocks, true) == [] then WithoutReasoning(m)
    else if OnlyThinking(m) then
      (if WouldOrphanToolResults(msgs, i) then WithoutReasoning(m).(content := PLACEHOLDER) else WithoutReasoning(m))
    else WithoutReasoning(m).(content := Blocks(Select(m.content.blocks, false)))
  }

  function StripPlan(msgs: seq<Message>): (p: Plan)
    ensures |p.messages| == |msgs|
    ensures forall i :: 0 <= i < |msgs| ==> p.messages[i] == Stripped(msgs, i)
    ensures forall i :: i in p.dropped <==>
              0 <= i < |msgs| && IsAssistant(msgs[i]) && OnlyThinking(msgs[i]) && !WouldOrphanToolResults(msgs, i)
  {
    Plan(seq(|msgs|, i requires 0 <= i < |msgs| => Stripped(msgs, i)),
         set i: nat | 0 <= i < |msgs| && IsAssistant(msgs[i]) && OnlyThinking(msgs[i]) && !WouldOrphanToolResults(msgs, i))
  }

  function Strip(msgs: seq<Message>): seq<Message> {
    Carry(StripPlan(msgs))
  }

  lemma StripPlanCareful(msgs: seq<Message>)
    ensures Careful(msgs, StripPlan(msgs))
  {
    hide WouldOrphanToolResults, Select;
  }

  lemma StripKeepsToolResults(msgs: seq<Message>, i: nat)
    requires i + 1 < |msgs| && msgs[i].role == "assistant" && AnswersTools(msgs[i + 1])
    ensures var out, at := Strip(msgs), Position(StripPlan(msgs), i);
            at + 1 < |out| && out[at] == Stripped(msgs, i) && out[at + 1] == msgs[i + 1]
  {
    hide Careful, Carry, Stripped, AnswersTools;
    StripPlanCareful(msgs);
    ToolResultsStay(msgs, StripPlan(msgs), i);
  }

  lemma StripKeepsAlternation(msgs: seq<Message>)
    requires Alternating(msgs)
    ensures Alternating(Strip(msgs))
  {
    hide Careful, Carry, Alternating;
    StripPlanCareful(msgs);
    AlternationStays(msgs, StripPlan(msgs));
  }

  lemma StripKeepsOtherBlocks(msgs: seq<Message>, i: nat)
    requires i < |msgs| && msgs[i].role == "assistant" && msgs[i].content.Blocks?
    requires exists b :: b in msgs[i].content.blocks && b.kind != "thinking"
    ensures var out, at := Strip(msgs), Position(StripPlan(msgs), i);
            && at < |out| && out[at].role == "assistant" && out[at].content.Blocks?
            && out[at].content.blocks == Select(msgs[i].content.blocks, false)
  {
    hide WouldOrphanToolResults, Select;
    var blocks := msgs[i].content.blocks;
    SelectedIff(blocks);
    if Select(blocks, true) == [] {
      AllOther(blocks);
    }
    var p := StripPlan(msgs);
    KeptAt(p.messages, p.dropped, i, |msgs|);
  }

  /** A message of nothing but thinking goes, unless that would strand tool results or put two user
      messages in a row; then an empty text takes the place of its content. */
  lemma StripDropsOnlyThinking(msgs: seq<Message>, i: nat)
    requires i < |msgs| && msgs[i].role == "assistant" && msgs[i].content.Blocks? && msgs[i].content.blocks != []
    requires forall b :: b in msgs[i].content.blocks ==> b.kind == "thinking"
    ensures var p, out := StripPlan(msgs), Strip(msgs);
            if WouldOrphanToolResults(msgs, i) then
              && Position(p, i) < |out| && Position(p, i + 1) == Position(p, i) + 1
              && out[Position(p, i)] == msgs[i].(content := Blocks([Block("text", "", None, map["text" := ""])]), reasoning := None)
            else Position(p, i + 1) == Position(p, i)
  {
    hide WouldOrphanToolResults, Select;
    SelectedIff(msgs[i].content.blocks);
    assert msgs[i].content.blocks[0] in msgs[i].content.blocks;
    var p := StripPlan(msgs);
    if WouldOrphanToolResults(msgs, i) {
      KeptAt(p.messages, p.dropped, i, |msgs|);
    }
  }

  lemma AllOther(blocks: seq<Block>)
    requires Select(blocks, true) == []
    ensures Select(blocks, false) == blocks
  {
    hide Select;
    SelectLength(blocks);
    forall b | b in blocks ensures IsThinking(b) == false {
      assert b in Select(blocks, false);
    }
    SelectUniform(blocks, false);
  }

  /** Nothing another provider could reject is left. */
  ghost predicate Foreign(m: Message) {
    m.role == "assistant" && (m.reasoning.Some? || (m.content.Blocks? && exists b :: b in m.content.blocks && b.kind == "thinking"))
  }

  lemma StrippedIsClean(msgs: seq<Message>, i: nat)
    requires i < |msgs|
    requires !(IsAssistant(msgs[i]) && OnlyThinking(msgs[i]) && !WouldOrphanToolResults(msgs, i))
    ensures !Foreign(Stripped(msgs, i))
  {
    hide Select;
    if msgs[i].content.Blocks? {
      SelectedIff(msgs[i].content.blocks);
    }
  }

  /** After the pass no thinking block and no reasoning is left, and a second pass has
      nothing to do. */
  lemma StripIsComplete(msgs: seq<Message>)
    ensures forall m :: m in Strip(msgs) ==> !Foreign(m)
    ensures Strip(Strip(msgs)) == Strip(msgs)
  {
    hide Select, WouldOrphanToolResults, Foreign, Stripped, Without, OnlyThinking;
    var p, out := StripPlan(msgs), Strip(msgs);
    forall m | m in out ensures !Foreign(m) {
      WithoutMembers(p.messages, p.dropped, |msgs|, m);
      var i: nat :| i < |msgs| && i !in p.dropped && p.messages[i] == m;
      StrippedIsClean(msgs, i);
    }
    var q := StripPlan(out);
    forall i | 0 <= i < |out| ensures Stripped(out, i) == out[i] && i !in q.dropped {
      assert out[i] in out;
      CleanIsFixed(out, i);
    }
    NoDropCarries(q, |out|);
    assert q.messages[..|out|] == q.messages;
    assert q.messages == out;
  }

  lemma CleanIsFixed(msgs: seq<Message>, i: nat)
    requires i < |msgs| && !Foreign(msgs[i])
    ensures Stripped(msgs, i) == msgs[i]
    ensures !(IsAssistant(msgs[i]) && OnlyThinking(msgs[i]))
  {
    hide Select;
    if msgs[i].content.Blocks? {
      SelectedIff(msgs[i].content.blocks);
      SelectLength(msgs[i].content.blocks);
    }
  }
}
