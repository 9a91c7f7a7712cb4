/** The passes as they run: loops over messages and blocks, appending to lists, collecting
    the indexes to drop, and counting in a shared context. */
module ThinkingPasses {
  import opened Options
  import opened Signatures
  import opened Conversation
  import opened ThinkingBlocks
  import opened ThinkingRewrite

  /** A request body: its messages, if that field is an array, and its thinking settings. */
  datatype Body = Body(messages: Option<seq<Message>>, thinking: Option<string>)

  // ----- What the shared context holds --------------------------------------------------------

  function LastSignature(g: Signer, blocks: seq<Block>, before: string): string {
    if blocks == [] then before
    else
      var b := blocks[|blocks| - 1];
      if IsThinking(b) && Kept(g, b) then Resolve(g, b) else LastSignature(g, blocks[..|blocks| - 1], before)
  }

  lemma {:induction false} LastSignatureAgain(g: Signer, blocks: seq<Block>, before: string)
    ensures LastSignature(g, blocks, LastSignature(g, blocks, before)) == LastSignature(g, blocks, before)
  {
    hide Kept, Resolve;
    if blocks != [] {
      LastSignatureAgain(g, blocks[..|blocks| - 1], before);
    }
  }

  /** The signature of the last kept thinking block of the first `n` messages. */
  function CurrentSignature(g: Signer, msgs: seq<Message>, n: nat): string
    requires n <= |msgs|
  {
    if n == 0 then ""
    else
      var before := CurrentSignature(g, msgs, n - 1);
      if HasBlocks(msgs[n - 1]) then LastSignature(g, msgs[n - 1].content.blocks, before) else before
  }

  predicate Rebuilt(g: Signer, blocks: seq<Block>) {
    Collected(g, blocks) != [] && (|Collected(g, blocks)| < |blocks| || NeedsReorder(blocks))
  }

  /** Whether the last message that had to be rebuilt was reordered. */
  function LastReordered(g: Signer, msgs: seq<Message>, n: nat): bool
    requires n <= |msgs|
  {
    if n == 0 then false
    else if HasBlocks(msgs[n - 1]) && Rebuilt(g, msgs[n - 1].content.blocks) then NeedsReorder(msgs[n - 1].content.blocks)
    else LastReordered(g, msgs, n - 1)
  }

  /** A thinking block whose signature resolves. */
  ghost predicate Bears(g: Signer, b: Block) {
    b.kind == "thinking" && Resolve(g, b) != ""
  }

  ghost predicate HasBearer(g: Signer, m: Message) {
    m.role == "assistant" && m.content.Blocks? && exists b :: b in m.content.blocks && Bears(g, b)
  }

  /** The signature tracked after a message is that of its last thinking block that has one. */
  lemma {:induction false} LastSignatureIs(g: Signer, blocks: seq<Block>, before: string) returns (i: nat)
    ensures i <= |blocks| && forall j :: i < j < |blocks| ==> !Bears(g, blocks[j])
    ensures i == |blocks| ==> (forall j :: 0 <= j < |blocks| ==> !Bears(g, blocks[j])) && LastSignature(g, blocks, before) == before
    ensures i < |blocks| ==> Bears(g, blocks[i]) && LastSignature(g, blocks, before) == Resolve(g, blocks[i])
  {
    hide Resolve;
    i := |blocks|;
    if blocks != [] {
      var n := |blocks| - 1;
      i := n;
      if !Bears(g, blocks[n]) {
        i := LastSignatureIs(g, blocks[..n], before);
        i := if i == n then |blocks| else i;
      }
    }
  }

  /** After `n` messages it is that of the last such block of them all, and empty before the first. */
  lemma {:induction false} CurrentSignatureIs(g: Signer, msgs: seq<Message>, n: nat) returns (m: nat, i: nat)
    requires n <= |msgs|
    ensures m <= n && forall q :: m < q < n ==> !HasBearer(g, msgs[q])
    ensures m == n ==> (forall q :: 0 <= q < n ==> !HasBearer(g, msgs[q])) && CurrentSignature(g, msgs, n) == ""
    ensures m < n ==>
              && msgs[m].role == "assistant" && msgs[m].content.Blocks? && i < |msgs[m].content.blocks|
              && Bears(g, msgs[m].content.blocks[i])
              && (forall j :: i < j < |msgs[m].content.blocks| ==> !Bears(g, msgs[m].content.blocks[j]))
              && CurrentSignature(g, msgs, n) == Resolve(g, msgs[m].content.blocks[i])
  {
    hide Resolve, Bears, LastSignature;
    m, i := n, 0;
    if n > 0 {
      var last := msgs[n - 1];
      if HasBlocks(last) {
        i := LastSignatureIs(g, last.content.blocks, CurrentSignature(g, msgs, n - 1));
      }
      if HasBearer(g, last) {
        m := n - 1;
      } else {
        m, i := CurrentSignatureIs(g, msgs, n - 1);
        m := if m == n - 1 then n else m;
      }
    }
  }

  ghost predicate OutOfOrder(blocks: seq<Block>) {
    blocks != [] && blocks[0].kind != "thinking" && exists b :: b in blocks && b.kind == "thinking"
  }

  /** A message that keeps a block, and loses one or begins with another block before its thinking. */
  ghost predicate NeedsRebuilding(g: Signer, m: Message) {
    && m.role == "assistant" && m.content.Blocks?
    && (exists b :: b in m.content.blocks && (b.kind != "thinking" || Bears(g, b)))
    && ((exists b :: b in m.content.blocks && b.kind == "thinking" && !Bears(g, b)) || OutOfOrder(m.content.blocks))
  }

  lemma ReorderIff(blocks: seq<Block>)
    ensures NeedsReorder(blocks) <==> OutOfOrder(blocks)
  {
    NeedsReorderMeans(blocks);
    hide NeedsReorder;
    if OutOfOrder(blocks) {
      var b :| b in blocks && b.kind == "thinking";
      var i :| 0 <= i < |blocks| && blocks[i] == b;
    }
  }

  lemma RebuiltIff(g: Signer, m: Message)
    ensures HasBlocks(m) && Rebuilt(g, m.content.blocks) <==> NeedsRebuilding(g, m)
  {
    if m.content.Blocks? {
      hide Collected, NeedsReorder, Resolve, OutOfOrder, Bears;
      ReorderIff(m.content.blocks);
      SomeKeptIff(g, m.content.blocks);
      SomeLostIff(g, m.content.blocks);
    }
  }

  lemma SomeLostIff(g: Signer, blocks: seq<Block>)
    ensures |Collected(g, blocks)| < |blocks| <==> exists b :: b in blocks && b.kind == "thinking" && !Bears(g, b)
  {
    hide Collected, Resolve;
    CollectedLength(g, blocks);
    if exists b :: b in blocks && b.kind == "thinking" && !Bears(g, b) {
      var b :| b in blocks && b.kind == "thinking" && !Bears(g, b);
      var i :| 0 <= i < |blocks| && blocks[i] == b;
      assert !Kept(g, blocks[i]);
    } else {
      forall i | 0 <= i < |blocks| ensures Kept(g, blocks[i]) {
        assert blocks[i] in blocks;
      }
    }
  }

  lemma SomeKeptIff(g: Signer, blocks: seq<Block>)
    ensures Collected(g, blocks) != [] <==> exists b :: b in blocks && (b.kind != "thinking" || Bears(g, b))
  {
    hide Collected, Resolve, Signed;
    var c := Collected(g, blocks);
    if c != [] {
      CollectedMembers(g, blocks, c[0]);
      assert c[0] in c;
      var i :| 0 <= i < |blocks| && Kept(g, blocks[i]) && c[0] == Signed(g, blocks[i]);
      assert blocks[i] in blocks;
    }
    if exists b :: b in blocks && (b.kind != "thinking" || Bears(g, b)) {
      var b :| b in blocks && (b.kind != "thinking" || Bears(g, b));
      var i :| 0 <= i < |blocks| && blocks[i] == b;
      assert Kept(g, blocks[i]);
      CollectedMembers(g, blocks, Signed(g, b));
    }
  }

  /** The reorder flag after `n` messages is that of the last one that had to be rebuilt, told from
      its blocks, and not set before the first. */
  lemma {:induction false} LastReorderedIs(g: Signer, msgs: seq<Message>, n: nat) returns (m: nat)
    requires n <= |msgs|
    ensures m <= n && forall q :: m < q < n ==> !NeedsRebuilding(g, msgs[q])
    ensures m == n ==> (forall q :: 0 <= q < n ==> !NeedsRebuilding(g, msgs[q])) && !LastReordered(g, msgs, n)
    ensures m < n ==> NeedsRebuilding(g, msgs[m]) && msgs[m].content.Blocks?
                      && (LastReordered(g, msgs, n) <==> OutOfOrder(msgs[m].content.blocks))
  {
    hide *;
    m := n;
    if n == 0 {
      NothingReordered(g, msgs);
    } else {
      LastReorderedStep(g, msgs, n - 1);
      m := LastReorderedIs(g, msgs, n - 1);
      if NeedsRebuilding(g, msgs[n - 1]) {
        m := n - 1;
      } else if m == n - 1 {
        m := n;
      }
    }
  }

  lemma NothingReordered(g: Signer, msgs: seq<Message>)
    ensures !LastReordered(g, msgs, 0)
  {
  }

  lemma LastReorderedStep(g: Signer, msgs: seq<Message>, n: nat)
    requires n < |msgs|
    ensures NeedsRebuilding(g, msgs[n]) ==>
              msgs[n].content.Blocks? && (LastReordered(g, msgs, n + 1) <==> OutOfOrder(msgs[n].content.blocks))
    ensures !NeedsRebuilding(g, msgs[n]) ==> LastReordered(g, msgs, n + 1) == LastReordered(g, msgs, n)
  {
    RebuiltIff(g, msgs[n]);
    hide NeedsReorder, Rebuilt, OutOfOrder;
    if NeedsRebuilding(g, msgs[n]) {
      ReorderIff(msgs[n].content.blocks);
    }
  }

  class ThinkingContext {
    var currentSignature: string
    var droppedBlocks: int
    var reorderedBlocks: bool

    constructor ()
      ensures currentSignature == "" && droppedBlocks == 0 && !reorderedBlocks
    {
      currentSignature, droppedBlocks, reorderedBlocks := "", 0, false;
    }
  }

  // ----- One message ------------------------------------------------------------------------------

  method AnalyzeContentBlocks(g: Signer, blocks: seq<Block>, ctx: ThinkingContext) returns (a: Analysis)
    modifies ctx`currentSignature
    ensures a == Analyze(g, blocks)
    ensures ctx.currentSignature == LastSignature(g, blocks, old(ctx.currentSignature))
  {
    hide Resolve;
    a := Analysis([], []);
    var i := 0;
    while i < |blocks|
      invariant 0 <= i <= |blocks|
      invariant a == Analyze(g, blocks[..i])
      invariant ctx.currentSignature == LastSignature(g, blocks[..i], old(ctx.currentSignature))
    {
      assert blocks[..i + 1][..i] == blocks[..i];
      var b := blocks[i];
      if IsThinking(b) {
        var sig := Resolve(g, b);
        if sig != "" {
          ctx.currentSignature := sig;
        }
        a := a.(results := a.results + [ThinkingResult(sig, i, sig != "")]);
      } else if IsToolUse(b) && b.signature.Some? {
        a := a.(toolUses := a.toolUses + [i]);
      }
      i := i + 1;
    }
    assert blocks[..i] == blocks;
  }

  method CountKeptBlocks(blocks: seq<Block>, a: Analysis) returns (kept: int)
    ensures kept == |blocks| - Unkept(a.results)
  {
    kept := |blocks|;
    var i := 0;
    while i < |a.results|
      invariant 0 <= i <= |a.results|
      invariant kept == |blocks| - Unkept(a.results[..i])
    {
      assert a.results[..i + 1][..i] == a.results[..i];
      if !a.results[i].keep {
        kept := kept - 1;
      }
      i := i + 1;
    }
    assert a.results[..i] == a.results;
  }

  /** The slow path's scan. */
  method CollectBlocks(g: Signer, blocks: seq<Block>, ctx: ThinkingContext) returns (out: seq<Block>)
    modifies ctx`currentSignature, ctx`droppedBlocks
    ensures out == Collected(g, blocks)
    ensures ctx.droppedBlocks == old(ctx.droppedBlocks) + |blocks| - |out|
    ensures ctx.currentSignature == LastSignature(g, blocks, old(ctx.currentSignature))
  {
    hide Resolve;
    out := [];
    var i := 0;
    while i < |blocks|
      invariant 0 <= i <= |blocks|
      invariant out == Collected(g, blocks[..i])
      invariant ctx.droppedBlocks == old(ctx.droppedBlocks) + i - |out|
      invariant ctx.currentSignature == LastSignature(g, blocks[..i], old(ctx.currentSignature))
    {
      assert blocks[..i + 1][..i] == blocks[..i];
      var b := blocks[i];
      if IsThinking(b) {
        var sig := Resolve(g, b);
        if sig == "" {
          ctx.droppedBlocks := ctx.droppedBlocks + 1;
        } else {
          ctx.currentSignature := sig;
          out := out + [b.(signature := Some(sig))];
        }
      } else if IsToolUse(b) {
        out := out + [b.(signature := None)];
      } else {
        out := out + [b];
      }
      i := i + 1;
    }
    assert blocks[..i] == blocks;
  }

  method ReorderBlocks(blocks: seq<Block>) returns (r: seq<Block>)
    ensures r == Reorder(blocks)
  {
    var thinking, other := [], [];
    var i := 0;
    while i < |blocks|
      invariant 0 <= i <= |blocks|
      invariant thinking == Select(blocks[..i], true) && other == Select(blocks[..i], false)
    {
      assert blocks[..i + 1][..i] == blocks[..i];
      if IsThinking(blocks[i]) {
        thinking := thinking + [blocks[i]];
      } else {
        other := other + [blocks[i]];
      }
      i := i + 1;
    }
    assert blocks[..i] == blocks;
    r := thinking + other;
  }

  /** The fast path: signature fields are edited in place, block by block. */
  method SurgicalUpdate(blocks: seq<Block>, a: Analysis) returns (r: seq<Block>)
    requires forall k :: 0 <= k < |a.results| ==> a.results[k].index < |blocks|
    requires forall k :: 0 <= k < |a.toolUses| ==> a.toolUses[k] < |blocks|
    ensures r == DeleteSignatures(SetSignatures(blocks, a.results), a.toolUses)
  {
    r := blocks;
    var i := 0;
    while i < |a.results|
      invariant 0 <= i <= |a.results|
      invariant r == SetSignatures(blocks, a.results[..i])
    {
      assert a.results[..i + 1][..i] == a.results[..i];
      var x := a.results[i];
      if x.keep {
        r := r[x.index := r[x.index].(signature := Some(x.signature))];
      }
      i := i + 1;
    }
    assert a.results[..i] == a.results;
    ghost var set_ := r;
    i := 0;
    while i < |a.toolUses|
      invariant 0 <= i <= |a.toolUses|
      invariant |r| == |blocks| && r == DeleteSignatures(set_, a.toolUses[..i])
    {
      assert a.toolUses[..i + 1][..i] == a.toolUses[..i];
      var idx := a.toolUses[i];
      r := r[idx := r[idx].(signature := None)];
      i := i + 1;
    }
    assert a.toolUses[..i] == a.toolUses;
  }

  method RebuildContent(g: Signer, blocks: seq<Block>, ctx: ThinkingContext, needsReorder: bool) returns (out: seq<Block>)
    modifies ctx
    ensures out == if needsReorder then Reorder(Collected(g, blocks)) else Collected(g, blocks)
    ensures ctx.reorderedBlocks == needsReorder
    ensures ctx.droppedBlocks == old(ctx.droppedBlocks) + |blocks| - |Collected(g, blocks)|
    ensures ctx.currentSignature == LastSignature(g, blocks, old(ctx.currentSignature))
  {
    hide Collected, Reorder, LastSignature;
    ctx.reorderedBlocks := needsReorder;
    out := CollectBlocks(g, blocks, ctx);
    if needsReorder {
      out := ReorderBlocks(out);
    }
  }

  /** One assistant message, in the body as rewritten so far. */
  method ProcessAssistantContent(g: Signer, body: seq<Message>, i: nat, ctx: ThinkingContext)
    returns (body': seq<Message>, drop: bool)
    requires i < |body| && HasBlocks(body[i])
    modifies ctx
    ensures drop <==> IsDropped(g, body, i)
    ensures body' == body[i := Edited(g, body, i)]
    ensures ctx.droppedBlocks == old(ctx.droppedBlocks) + |body[i].content.blocks| - |Collected(g, body[i].content.blocks)|
    ensures ctx.currentSignature == LastSignature(g, body[i].content.blocks, old(ctx.currentSignature))
    ensures ctx.reorderedBlocks == if Rebuilt(g, body[i].content.blocks) then NeedsReorder(body[i].content.blocks) else old(ctx.reorderedBlocks)
  {
    hide Collected, Reorder, LastSignature, NeedsReorder, WouldOrphanToolResults, Analyze, Unkept, SetSignatures, DeleteSignatures;
    var blocks := body[i].content.blocks;
    var analysis := AnalyzeContentBlocks(g, blocks, ctx);
    var keptCount := CountKeptBlocks(blocks, analysis);
    UnkeptCounts(g, blocks);
    CollectedLength(g, blocks);
    if keptCount == 0 {
      if WouldOrphanToolResults(body, i) {
        ctx.droppedBlocks := ctx.droppedBlocks + |blocks|;
        return body[i := body[i].(content := PLACEHOLDER)], false;
      }
      ctx.droppedBlocks := ctx.droppedBlocks + |blocks| - keptCount;
      assert body[i := body[i]] == body;
      return body, true;
    }
    var needsReorder := NeedsReorder(blocks);
    var content;
    if keptCount == |blocks| && !needsReorder {
      content := SurgicalUpdate(blocks, analysis);
      FastPathEqualsSlowPath(g, blocks);
    } else {
      LastSignatureAgain(g, blocks, old(ctx.currentSignature));
      content := RebuildContent(g, blocks, ctx, needsReorder);
    }
    return body[i := body[i].(content := Blocks(content))], false;
  }

  // ----- The request pass ------------------------------------------------------------------------------

  /** Messages edited so far, the rest as they came. */
  function EditedUpTo(g: Signer, msgs: seq<Message>, n: nat): (r: seq<Message>)
    requires n <= |msgs|
    ensures |r| == |msgs|
    ensures forall i :: 0 <= i < |msgs| ==> r[i] == if i < n then Edited(g, msgs, i) else msgs[i]
  {
    seq(|msgs|, i requires 0 <= i < |msgs| => if i < n then Edited(g, msgs, i) else msgs[i])
  }

  /** Deciding on a message from the body as rewritten so far is deciding from the
      original one. */
  lemma EditedLater(g: Signer, msgs: seq<Message>, n: nat)
    requires n < |msgs|
    ensures var body := EditedUpTo(g, msgs, n);
            && Edited(g, body, n) == Edited(g, msgs, n)
            && IsDropped(g, body, n) == IsDropped(g, msgs, n)
            && body[n := Edited(g, msgs, n)] == EditedUpTo(g, msgs, n + 1)
  {
    hide WouldOrphanToolResults, Collected, Processed;
    OrphanCheckStable(EditedUpTo(g, msgs, n), msgs, n);
  }

  ghost predicate DropList(p: Plan, dropped: seq<nat>, n: nat) {
    && (forall k :: 0 <= k < |dropped| ==> dropped[k] < n)
    && (forall k, l :: 0 <= k < l < |dropped| ==> dropped[k] < dropped[l])
    && (forall i: nat :: i < n ==> (i in dropped <==> i in p.dropped))
  }

  lemma DropListStart(p: Plan)
    ensures DropList(p, [], 0)
  {
  }

  lemma DropListGrows(p: Plan, dropped: seq<nat>, n: nat)
    requires DropList(p, dropped, n)
    ensures DropList(p, if n in p.dropped then dropped + [n] else dropped, n + 1)
  {
  }

  method ProcessRequestThinking(g: Signer, body: Body) returns (r: Body, ctx: ThinkingContext)
    ensures fresh(ctx)
    ensures body.messages.None? ==> r == body && ctx.droppedBlocks == 0
    ensures body.messages.Some? ==>
              var msgs := body.messages.value;
              && r == body.(messages := Some(Process(g, msgs)))
              && ctx.droppedBlocks == DroppedBlocks(g, msgs, |msgs|)
              && ctx.currentSignature == CurrentSignature(g, msgs, |msgs|)
              && ctx.reorderedBlocks == LastReordered(g, msgs, |msgs|)
  {
    hide Edited, IsDropped, LastSignature, Rebuilt, NeedsReorder, Collected, DropList, Carry;
    if body.messages.Some? {
      DropListStart(RequestPlan(g, body.messages.value));
    }
    ctx := new ThinkingContext();
    if body.messages.None? {
      return body, ctx;
    }
    var msgs := body.messages.value;
    ghost var p := RequestPlan(g, msgs);
    var modified := msgs;
    var dropIndexes: seq<nat> := [];
    var i := 0;
    assert EditedUpTo(g, msgs, 0) == msgs;
    while i < |msgs|
      invariant 0 <= i <= |msgs|
      invariant modified == EditedUpTo(g, msgs, i)
      invariant DropList(p, dropIndexes, i)
      invariant ctx.droppedBlocks == DroppedBlocks(g, msgs, i)
      invariant ctx.currentSignature == CurrentSignature(g, msgs, i)
      invariant ctx.reorderedBlocks == LastReordered(g, msgs, i)
    {
      EditedLater(g, msgs, i);
      DropListGrows(p, dropIndexes, i);
      if HasBlocks(msgs[i]) {
        var drop;
        modified, drop := ProcessAssistantContent(g, modified, i, ctx);
        if drop {
          dropIndexes := dropIndexes + [i];
        }
      } else {
        NoBlocksNoChange(g, msgs, i);
        assert modified[i := msgs[i]] == modified;
      }
      i := i + 1;
    }
    assert modified == p.messages;
    modified := DropListed(p, modified, dropIndexes);
    r := body.(messages := Some(modified));
  }

  method DropListed(ghost p: Plan, modified: seq<Message>, dropIndexes: seq<nat>) returns (r: seq<Message>)
    requires modified == p.messages
    requires DropList(p, dropIndexes, |modified|)
    requires forall i :: i in p.dropped ==> i < |modified|
    ensures r == Carry(p)
  {
    assert IndexSet(dropIndexes) == p.dropped;
    if |dropIndexes| > 0 {
      r := DropMessagesByIndex(modified, dropIndexes);
    } else {
      r := modified;
      WithoutNone(modified, p.dropped, |modified|);
    }
  }

  lemma NoBlocksNoChange(g: Signer, msgs: seq<Message>, i: nat)
    requires i < |msgs| && !HasBlocks(msgs[i])
    ensures Edited(g, msgs, i) == msgs[i] && !IsDropped(g, msgs, i)
  {
  }

  // ----- The provider-switch pass --------------------------------------------------------------------------

  function StrippedUpTo(msgs: seq<Message>, n: nat): (r: seq<Message>)
    requires n <= |msgs|
    ensures |r| == |msgs|
    ensures forall i :: 0 <= i < |msgs| ==> r[i] == if i < n then Stripped(msgs, i) else msgs[i]
  {
    seq(|msgs|, i requires 0 <= i < |msgs| => if i < n then Stripped(msgs, i) else msgs[i])
  }

  /** stripThinkingFromMessages: the edited messages and the indexes to drop. */
  method StripThinkingFromMessages(msgs: seq<Message>) returns (modified: seq<Message>, dropIndexes: seq<nat>)
    ensures modified == StripPlan(msgs).messages
    ensures DropList(StripPlan(msgs), dropIndexes, |msgs|)
  {
    hide Select, WouldOrphanToolResults, DropList;
    ghost var p := StripPlan(msgs);
    modified, dropIndexes := msgs, [];
    DropListStart(p);
    var i := 0;
    assert StrippedUpTo(msgs, 0) == msgs;
    while i < |msgs|
      invariant 0 <= i <= |msgs|
      invariant modified == StrippedUpTo(msgs, i)
      invariant DropList(p, dropIndexes, i)
    {
      DropListGrows(p, dropIndexes, i);
      OrphanCheckStable(modified, msgs, i);
      var m := msgs[i];
      var drop := false;
      if IsAssistant(m) {
        var edited := WithoutReasoning(m);
        if m.content.Blocks? {
          var hasThinking, hasOther, others := ScanBlocks(m.content.blocks);
          if hasThinking {
            if !hasOther {
              if WouldOrphanToolResults(modified, i) {
                edited := edited.(content := PLACEHOLDER);
              } else {
                drop := true;
              }
            } else {
              edited := edited.(content := Blocks(others));
            }
          }
          ThinkingNeedsBlock(m.content.blocks);
        }
        modified := modified[i := edited];
        if drop {
          dropIndexes := dropIndexes + [i];
        }
      }
      assert modified == StrippedUpTo(msgs, i + 1);
      i := i + 1;
    }
    assert modified == p.messages;
  }

  lemma ThinkingNeedsBlock(blocks: seq<Block>)
    ensures blocks == [] ==> Select(blocks, true) == [] && Select(blocks, false) == []
    ensures Select(blocks, true) == [] && Select(blocks, false) == [] ==> blocks == []
  {
    SelectLength(blocks);
  }

  method ScanBlocks(blocks: seq<Block>) returns (hasThinking: bool, hasOther: bool, others: seq<Block>)
    ensures hasThinking <==> Select(blocks, true) != []
    ensures hasOther <==> Select(blocks, false) != []
    ensures others == Select(blocks, false)
  {
    hasThinking, hasOther, others := false, false, [];
    var i := 0;
    while i < |blocks|
      invariant 0 <= i <= |blocks|
      invariant hasThinking <==> Select(blocks[..i], true) != []
      invariant hasOther <==> Select(blocks[..i], false) != []
      invariant others == Select(blocks[..i], false)
    {
      assert blocks[..i + 1][..i] == blocks[..i];
      if IsThinking(blocks[i]) {
        hasThinking := true;
      } else {
        hasOther := true;
        others := others + [blocks[i]];
      }
      i := i + 1;
    }
    assert blocks[..i] == blocks;
  }

  method StripThinkingForProviderSwitch(body: Body) returns (r: Body)
    ensures r.thinking == None
    ensures r.messages == match body.messages case None => None case Some(msgs) => Some(Strip(msgs))
  {
    r := body.(thinking := None);
    if body.messages.None? {
      return;
    }
    var msgs := body.messages.value;
    var modified, dropIndexes := StripThinkingFromMessages(msgs);
    ghost var p := StripPlan(msgs);
    modified := DropListed(p, modified, dropIndexes);
    r := r.(messages := Some(modified));
  }

  // ----- The response pass -------------------------------------------------------------------------------------

  /** A thinking block whose signature is worth remembering. */
  predicate Cacheable(model: string, b: Block) {
    IsThinking(b) && b.thinking != "" && IsValidSignature(model, ClientSignature(b))
  }

  function Remember(model: string, hash: string -> string, entries: map<(string, string), string>, b: Block)
    : map<(string, string), string>
  {
    if Cacheable(model, b) then entries[(GetModelGroup(model), hash(b.thinking)) := ClientSignature(b)] else entries
  }

  /** The cache after it was offered each thinking block of a response in turn. */
  function Remembered(
    model: string, hash: string -> string, entries: map<(string, string), string>, content: seq<Block>)
    : map<(string, string), string>
  {
    if content == [] then entries
    else
      Remember(model, hash, Remembered(model, hash, entries, content[..|content| - 1]), content[|content| - 1])
  }

  /** The cache as a later request of a model reads it. */
  function Recall(model: string, hash: string -> string, entries: map<(string, string), string>): string -> string {
    (text: string) =>
      var key := (GetModelGroup(model), hash(text));
      if key in entries then entries[key] else ""
  }

  /** A thinking block with text whose signature is valid for the model: the sentinel for Gemini
      models only, and any other of 50 characters or more. */
  ghost predicate Memorable(model: string, b: Block) {
    && b.kind == "thinking" && b.thinking != "" && b.signature.Some?
    && if b.signature.value == "skip_thought_signature_validator" then GetModelGroup(model) == "gemini"
       else |b.signature.value| >= 50
  }

  lemma CacheableIff(model: string, b: Block)
    ensures Cacheable(model, b) <==> Memorable(model, b)
    ensures Memorable(model, b) ==> ClientSignature(b) == b.signature.value
  {
    hide GetModelGroup;
  }

  lemma {:induction false} LastOneStays(
    model: string, hash: string -> string, entries: map<(string, string), string>, content: seq<Block>, i: nat)
    requires i < |content| && Memorable(model, content[i])
    requires forall j :: i < j < |content| && Memorable(model, content[j]) && hash(content[j].thinking) == hash(content[i].thinking)
               ==> content[j].signature == content[i].signature
    ensures var key, r := (GetModelGroup(model), hash(content[i].thinking)), Remembered(model, hash, entries, content);
            key in r && r[key] == content[i].signature.value
  {
    CacheableIff(model, content[|content| - 1]);
    hide Cacheable, Memorable, GetModelGroup;
    if i < |content| - 1 {
      LastOneStays(model, hash, entries, content[..|content| - 1], i);
    }
  }

  /** A signature the client lost comes back: when a thinking block of a response returns without
      its signature, to any model of the same group, the request pass gives it the original one. */
  lemma CacheRestores(
    model: string, other: string, hash: string -> string, entries: map<(string, string), string>, content: seq<Block>, i: nat)
    requires i < |content| && Memorable(model, content[i]) && GetModelGroup(other) == GetModelGroup(model)
    requires forall j :: i < j < |content| && Memorable(model, content[j]) && hash(content[j].thinking) == hash(content[i].thinking)
               ==> content[j].signature == content[i].signature
    ensures var g := Signer(other, Recall(other, hash, Remembered(model, hash, entries, content)));
            var lost := content[i].(signature := None);
            Kept(g, lost) && Signed(g, lost) == content[i]
  {
    LastOneStays(model, hash, entries, content, i);
    hide Remembered, GetModelGroup, ParseSignature;
    assert content[i].signature.value != "";
  }

  /** Nothing else is learnt: a text that no memorable block of the response has, up to its hash, is
      recalled as it was before, which is as nothing if the cache did not know it. */
  lemma {:induction false} NothingElseLearnt(
    model: string, other: string, hash: string -> string, entries: map<(string, string), string>, content: seq<Block>, text: string)
    requires forall b :: b in content && Memorable(model, b) && GetModelGroup(other) == GetModelGroup(model)
               ==> hash(b.thinking) != hash(text)
    ensures var key := (GetModelGroup(other), hash(text));
            Recall(other, hash, Remembered(model, hash, entries, content))(text) == if key in entries then entries[key] else ""
  {
    hide GetModelGroup, Cacheable, Memorable;
    if content != [] {
      var front, last := content[..|content| - 1], content[|content| - 1];
      NothingElseLearnt(model, other, hash, entries, front, text);
      CacheableIff(model, last);
      assert last in content;
    }
  }

  lemma NotRemembered(model: string, hash: string -> string, entries: map<(string, string), string>, b: Block)
    requires !IsThinking(b) || ClientSignature(b) == ""
    ensures Remember(model, hash, entries, b) == entries
  {
  }

  method CacheThinking(model: string, b: Block, cache: SignatureCache)
    requires cache.Valid() && IsThinking(b)
    modifies cache
    ensures cache.Valid()
    ensures cache.entries == Remember(model, cache.hash, old(cache.entries), b)
  {
    if b.thinking != "" {
      cache.Set(model, b.thinking, ClientSignature(b));
    }
  }

  /** ProcessNonStreamingResponse: caches and prefixes each signature of the response. */
  method ProcessNonStreamingResponse(model: string, content: seq<Block>, cache: SignatureCache) returns (r: seq<Block>)
    requires cache.Valid()
    modifies cache
    ensures cache.Valid()
    ensures r == PrefixContent(model, content)
    ensures cache.entries == Remembered(model, cache.hash, old(cache.entries), content)
  {
    assert content[..0] == [];
    hide FormatSignature, Remember;
    r := content;
    var i := 0;
    while i < |content|
      invariant 0 <= i <= |content| == |r|
      invariant cache.Valid()
      invariant cache.entries == Remembered(model, cache.hash, old(cache.entries), content[..i])
      invariant forall j :: 0 <= j < |content| ==> r[j] == if j < i then PrefixBlock(model, content[j]) else content[j]
    {
      var b := content[i];
      var signature := ClientSignature(b);
      if IsThinking(b) && signature != "" {
        CacheThinking(model, b, cache);
        r := r[i := b.(signature := Some(FormatSignature(model, signature)))];
      }
      if !IsThinking(b) || signature == "" {
        NotRemembered(model, cache.hash, cache.entries, b);
      }
      assert content[..i + 1][..i] == content[..i];
      i := i + 1;
    }
    assert content[..i] == content;
  }
}
