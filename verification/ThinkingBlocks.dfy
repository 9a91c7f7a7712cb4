/** One assistant message's content: resolving signatures, dropping unsigned thinking
    blocks, re-signing and reordering the rest. */
module ThinkingBlocks {
  import opened Options
  import opened Signatures
  import opened Conversation
  import Lines

  /** The model of a request and its signature cache, fixed while the request is handled;
      an absent entry, and an absent cache, answer "". */
  datatype Signer = Signer(model: string, cached: string -> string)

  function ClientSignature(b: Block): string {
    match b.signature
    case None => ""
    case Some(s) => s
  }

  /** The signature a thinking block goes out with; "" means that it is dropped. */
  function Resolve(g: Signer, b: Block): string {
    var client := ClientSignature(b);
    if client != "" && ParseSignature(client).Some? then ParseSignature(client).value.signature
    else if client != "" && IsValidSignature(g.model, client) then client
    else g.cached(b.thinking)
  }

  /** Where the signature comes from: a client's prefixed one is cut behind its first '#', a valid one
      is taken as it is, and for any other the cache is asked. Valid is the sentinel for Gemini models
      only, and any other text of 50 characters or more. */
  lemma ResolvesTo(g: Signer, b: Block) returns (n: nat)
    ensures var s := if b.signature.Some? then b.signature.value else "";
            if '#' in s then n < |s| && s[n] == '#' && '#' !in s[..n] && Resolve(g, b) == s[n + 1..]
            else if s == "skip_thought_signature_validator" && GetModelGroup(g.model) == "gemini" then Resolve(g, b) == s
            else if s != "skip_thought_signature_validator" && |s| >= 50 then Resolve(g, b) == s
            else Resolve(g, b) == g.cached(b.thinking)
  {
    hide GetModelGroup, Lines.IndexOf;
    var s := ClientSignature(b);
    n := Lines.IndexOf(s, '#');
    if n == |s| {
      assert s[..n] == s;
    }
  }

  predicate Kept(g: Signer, b: Block) {
    IsThinking(b) ==> Resolve(g, b) != ""
  }

  function Signed(g: Signer, b: Block): (r: Block)
    ensures r.kind == b.kind
  {
    if IsThinking(b) then b.(signature := Some(Resolve(g, b)))
    else if IsToolUse(b) then b.(signature := None)
    else b
  }

  /** The blocks that stay, re-signed, in their order. */
  function Collected(g: Signer, blocks: seq<Block>): seq<Block> {
    if blocks == [] then []
    else
      var b := blocks[|blocks| - 1];
      Collected(g, blocks[..|blocks| - 1]) + if Kept(g, b) then [Signed(g, b)] else []
  }

  /** The thinking blocks, or the others, in their order. */
  function Select(blocks: seq<Block>, thinking: bool): (r: seq<Block>)
    ensures forall b :: b in r ==> (b.kind == "thinking") == thinking && b in blocks
  {
    if blocks == [] then []
    else
      var b := blocks[|blocks| - 1];
      Select(blocks[..|blocks| - 1], thinking) + if IsThinking(b) == thinking then [b] else []
  }

  function Reorder(blocks: seq<Block>): seq<Block> {
    Select(blocks, true) + Select(blocks, false)
  }

  /** The first block that is, or is not, a thinking block; the length if there is none. */
  function FirstIndex(blocks: seq<Block>, thinking: bool): (n: nat)
    ensures n <= |blocks| && forall i :: 0 <= i < n ==> IsThinking(blocks[i]) != thinking
    ensures n < |blocks| ==> IsThinking(blocks[n]) == thinking
  {
    if blocks == [] || IsThinking(blocks[0]) == thinking then 0 else 1 + FirstIndex(blocks[1..], thinking)
  }

  /** checkReorderNeeded: it compares the two first positions only. */
  predicate NeedsReorder(blocks: seq<Block>) {
    var firstThinking, firstOther := FirstIndex(blocks, true), FirstIndex(blocks, false);
    firstThinking < |blocks| && firstOther < |blocks| && firstOther < firstThinking
  }

  function Processed(g: Signer, blocks: seq<Block>): seq<Block> {
    if NeedsReorder(blocks) then Reorder(Collected(g, blocks)) else Collected(g, blocks)
  }

  ghost predicate HasThinking(blocks: seq<Block>) {
    exists i :: 0 <= i < |blocks| && blocks[i].kind == "thinking"
  }

  lemma NeedsReorderMeans(blocks: seq<Block>)
    ensures NeedsReorder(blocks) <==> |blocks| > 0 && !IsThinking(blocks[0]) && HasThinking(blocks)
  {
    hide FirstIndex;
    var t, o := FirstIndex(blocks, true), FirstIndex(blocks, false);
    if |blocks| > 0 && !IsThinking(blocks[0]) {
      assert o == 0;
    }
  }

  // ----- Selection -----------------------------------------------------------------------

  lemma {:induction false} SelectAppend(a: seq<Block>, b: seq<Block>, thinking: bool)
    ensures Select(a + b, thinking) == Select(a, thinking) + Select(b, thinking)
  {
    if b == [] {
      assert a + b == a;
    } else {
      var n := |b| - 1;
      assert (a + b)[..|a + b| - 1] == a + b[..n];
      SelectAppend(a, b[..n], thinking);
    }
  }

  lemma {:induction false} SelectUniform(blocks: seq<Block>, thinking: bool)
    requires forall b :: b in blocks ==> IsThinking(b) == thinking
    ensures Select(blocks, thinking) == blocks && Select(blocks, !thinking) == []
  {
    if blocks != [] {
      var front, last := blocks[..|blocks| - 1], blocks[|blocks| - 1];
      assert IsThinking(last) == thinking;
      assert blocks == front + [last];
      hide IsThinking;
      SelectUniform(front, thinking);
    }
  }

  /** Reordering is a stable partition: neither group changes its own order. */
  lemma ReorderSelects(blocks: seq<Block>, thinking: bool)
    ensures Select(Reorder(blocks), thinking) == Select(blocks, thinking)
  {
    hide Select;
    SelectAppend(Select(blocks, true), Select(blocks, false), thinking);
    SelectUniform(Select(blocks, true), true);
    SelectUniform(Select(blocks, false), false);
  }

  lemma {:induction false} SelectLength(blocks: seq<Block>)
    ensures |Select(blocks, true)| + |Select(blocks, false)| == |blocks|
    ensures forall b :: b in blocks ==> b in Select(blocks, true) || b in Select(blocks, false)
  {
    if blocks != [] {
      var front, last := blocks[..|blocks| - 1], blocks[|blocks| - 1];
      SelectLength(front);
      forall b | b in blocks ensures b in Select(blocks, true) || b in Select(blocks, false) {
        assert b in front || b == last by {
          assert blocks == front + [last];
        }
      }
    }
  }

  /** Whether a kind of block occurs is told by its selection. */
  lemma SelectedIff(blocks: seq<Block>)
    ensures Select(blocks, true) != [] <==> exists b :: b in blocks && b.kind == "thinking"
    ensures Select(blocks, false) != [] <==> exists b :: b in blocks && b.kind != "thinking"
  {
    hide Select;
    SelectLength(blocks);
    var t, o := Select(blocks, true), Select(blocks, false);
    if t != [] {
      assert t[0] in t;
    }
    if o != [] {
      assert o[0] in o;
    }
    forall b | b in blocks ensures if b.kind == "thinking" then b in t else b in o {
    }
  }

  ghost predicate ThinkingFirst(blocks: seq<Block>) {
    forall i, j :: 0 <= i < j < |blocks| && blocks[j].kind == "thinking" ==> blocks[i].kind == "thinking"
  }

  lemma ReorderIsThinkingFirst(blocks: seq<Block>)
    ensures ThinkingFirst(Reorder(blocks))
  {
    hide Select;
    var t, o := Select(blocks, true), Select(blocks, false);
    forall k | 0 <= k < |t| ensures IsThinking(t[k]) {
      assert t[k] in t;
    }
    forall k | 0 <= k < |o| ensures !IsThinking(o[k]) {
      assert o[k] in o;
    }
  }

  lemma {:induction false} ThinkingFirstSelects(blocks: seq<Block>)
    requires ThinkingFirst(blocks)
    ensures Reorder(blocks) == blocks
  {
    if blocks == [] {
      SelectUniform(blocks, true);
    } else {
      hide Select;
      var front, b := blocks[..|blocks| - 1], blocks[|blocks| - 1];
      assert blocks == front + [b];
      if !IsThinking(b) {
        ThinkingFirstSelects(front);
        assert Reorder(blocks) == Reorder(front) + [b] by {
          SelectSnoc(front, b);
        }
      } else {
        assert Select(blocks, true) == blocks && Select(blocks, false) == [] by {
          forall x | x in blocks ensures IsThinking(x) == true {
            var i :| 0 <= i < |blocks| && blocks[i] == x;
          }
          SelectUniform(blocks, true);
        }
      }
    }
  }

  lemma SelectSnoc(front: seq<Block>, b: Block)
    ensures Select(front + [b], true) == if IsThinking(b) then Select(front, true) + [b] else Select(front, true)
    ensures Select(front + [b], false) == if IsThinking(b) then Select(front, false) else Select(front, false) + [b]
  {
    assert (front + [b])[..|front|] == front;
  }

  /** Reordering changes nothing exactly when thinking already comes first. */
  lemma ReorderFixed(blocks: seq<Block>)
    ensures ThinkingFirst(Reorder(blocks))
    ensures Reorder(blocks) == blocks <==> ThinkingFirst(blocks)
  {
    hide Reorder, ThinkingFirst;
    ReorderIsThinkingFirst(blocks);
    if ThinkingFirst(blocks) {
      ThinkingFirstSelects(blocks);
    }
  }

  // ----- Collecting ----------------------------------------------------------------------

  ghost predicate AllKept(g: Signer, blocks: seq<Block>) {
    forall i :: 0 <= i < |blocks| ==> Kept(g, blocks[i])
  }

  function SignedAll(g: Signer, blocks: seq<Block>): (r: seq<Block>)
    ensures |r| == |blocks| && forall i :: 0 <= i < |r| ==> r[i] == Signed(g, blocks[i])
  {
    seq(|blocks|, i requires 0 <= i < |blocks| => Signed(g, blocks[i]))
  }

  lemma {:induction false} CollectedLength(g: Signer, blocks: seq<Block>)
    ensures |Collected(g, blocks)| <= |blocks|
    ensures |Collected(g, blocks)| == |blocks| <==> AllKept(g, blocks)
    ensures AllKept(g, blocks) ==> Collected(g, blocks) == SignedAll(g, blocks)
  {
    hide Kept, Signed;
    if blocks != [] {
      CollectedLength(g, blocks[..|blocks| - 1]);
    }
  }

  /** The blocks that are not thinking blocks all stay, in their order, and the thinking
      blocks that stay keep theirs. */
  lemma OthersSurvive(g: Signer, blocks: seq<Block>)
    ensures Select(Processed(g, blocks), false) == SignedAll(g, Select(blocks, false))
    ensures Select(Processed(g, blocks), true) == Collected(g, Select(blocks, true))
  {
    hide Select, Reorder, NeedsReorder, Collected;
    CollectedSelects(g, blocks);
    ReorderSelects(Collected(g, blocks), false);
    ReorderSelects(Collected(g, blocks), true);
  }

  lemma {:induction false} CollectedSelects(g: Signer, blocks: seq<Block>)
    ensures Select(Collected(g, blocks), false) == SignedAll(g, Select(blocks, false))
    ensures Select(Collected(g, blocks), true) == Collected(g, Select(blocks, true))
  {
    assert Collected(g, []) == [] && Select([], true) == [] && Select([], false) == [];
    hide Resolve, Kept, Signed, Select, Collected;
    if blocks != [] {
      var front, b := blocks[..|blocks| - 1], blocks[|blocks| - 1];
      assert blocks == front + [b];
      CollectedSelects(g, front);
      CollectedSelectsStep(g, front, b);
    }
  }

  lemma CollectedSelectsStep(g: Signer, front: seq<Block>, b: Block)
    requires Select(Collected(g, front), false) == SignedAll(g, Select(front, false))
    requires Select(Collected(g, front), true) == Collected(g, Select(front, true))
    ensures Select(Collected(g, front + [b]), false) == SignedAll(g, Select(front + [b], false))
    ensures Select(Collected(g, front + [b]), true) == Collected(g, Select(front + [b], true))
  {
    hide Resolve, Kept, Signed, Select, Collected;
    CollectedSnoc(g, front, b);
    SelectSnoc(front, b);
    KindKept(g, b);
    if IsThinking(b) {
      if Kept(g, b) {
        SelectSnoc(Collected(g, front), Signed(g, b));
      }
      CollectedSnoc(g, Select(front, true), b);
    } else {
      OtherKept(g, b);
      SelectSnoc(Collected(g, front), Signed(g, b));
      assert SignedAll(g, Select(front, false) + [b]) == SignedAll(g, Select(front, false)) + [Signed(g, b)];
    }
  }

  lemma CollectedSnoc(g: Signer, front: seq<Block>, b: Block)
    ensures Collected(g, front + [b]) == if Kept(g, b) then Collected(g, front) + [Signed(g, b)] else Collected(g, front)
  {
    assert (front + [b])[..|front|] == front;
  }

  lemma {:induction false} CollectedMembers(g: Signer, blocks: seq<Block>, x: Block)
    ensures x in Collected(g, blocks) <==> exists i :: 0 <= i < |blocks| && Kept(g, blocks[i]) && x == Signed(g, blocks[i])
  {
    hide Kept, Signed;
    if blocks != [] {
      CollectedMembers(g, blocks[..|blocks| - 1], x);
    }
  }

  lemma ProcessedMembers(g: Signer, blocks: seq<Block>, x: Block)
    ensures x in Processed(g, blocks) <==> x in Collected(g, blocks)
    ensures |Processed(g, blocks)| == |Collected(g, blocks)|
  {
    hide Select, Collected, NeedsReorder;
    SelectLength(Collected(g, blocks));
  }

  /** A thinking block stands behind another block and its signature resolves. */
  ghost predicate KeptBehindOther(g: Signer, blocks: seq<Block>) {
    exists i, j :: 0 <= i < j < |blocks| && blocks[i].kind != "thinking" && blocks[j].kind == "thinking" && Kept(g, blocks[j])
  }

  lemma {:induction false} CollectedInOrder(g: Signer, blocks: seq<Block>)
    ensures ThinkingFirst(Collected(g, blocks)) <==> !KeptBehindOther(g, blocks)
  {
    if blocks == [] {
      assert Collected(g, blocks) == [];
    } else {
      hide ThinkingFirst, KeptBehindOther, Collected, Kept, Signed;
      var front, b := blocks[..|blocks| - 1], blocks[|blocks| - 1];
      assert blocks == front + [b];
      CollectedInOrder(g, front);
      CollectedSnoc(g, front, b);
      OtherCollected(g, front);
      KindKept(g, b);
      LastInOrder(Collected(g, front), Signed(g, b));
      LastBehindOther(g, front, b);
      if !Kept(g, b) {
        DroppedIsThinking(g, b);
      }
    }
  }

  ghost predicate HasOther(blocks: seq<Block>) {
    exists i :: 0 <= i < |blocks| && blocks[i].kind != "thinking"
  }

  lemma LastInOrder(front: seq<Block>, b: Block)
    ensures ThinkingFirst(front + [b]) <==> ThinkingFirst(front) && !(IsThinking(b) && HasOther(front))
  {
    var s := front + [b];
    assert forall i :: 0 <= i < |front| ==> s[i] == front[i];
    assert s[|front|] == b;
    if ThinkingFirst(s) {
      forall i, j | 0 <= i < j < |front| && IsThinking(front[j]) ensures IsThinking(front[i]) {
        assert IsThinking(s[j]);
      }
    }
  }

  lemma LastBehindOther(g: Signer, front: seq<Block>, b: Block)
    ensures KeptBehindOther(g, front + [b]) <==>
            KeptBehindOther(g, front) || (HasOther(front) && IsThinking(b) && Kept(g, b))
  {
    hide Kept;
    var s := front + [b];
    assert forall i :: 0 <= i < |front| ==> s[i] == front[i];
    if KeptBehindOther(g, front) {
      var i, j :| 0 <= i < j < |front| && !IsThinking(front[i]) && IsThinking(front[j]) && Kept(g, front[j]);
      assert !IsThinking(s[i]) && IsThinking(s[j]) && Kept(g, s[j]);
    }
    if HasOther(front) && IsThinking(b) && Kept(g, b) {
      var i :| 0 <= i < |front| && !IsThinking(front[i]);
      assert !IsThinking(s[i]) && IsThinking(s[|front|]) && Kept(g, s[|front|]);
    }
  }

  lemma DroppedIsThinking(g: Signer, b: Block)
    requires !Kept(g, b)
    ensures IsThinking(b)
  {
  }

  lemma OtherCollected(g: Signer, blocks: seq<Block>)
    ensures HasOther(Collected(g, blocks)) <==> HasOther(blocks)
  {
    hide Collected, Kept, Signed;
    var c := Collected(g, blocks);
    if HasOther(c) {
      var i :| 0 <= i < |c| && !IsThinking(c[i]);
      CollectedMembers(g, blocks, c[i]);
      assert c[i] in c;
      var j :| 0 <= j < |blocks| && Kept(g, blocks[j]) && c[i] == Signed(g, blocks[j]);
      KindKept(g, blocks[j]);
    }
    if HasOther(blocks) {
      var j :| 0 <= j < |blocks| && !IsThinking(blocks[j]);
      OtherKept(g, blocks[j]);
      KindKept(g, blocks[j]);
      CollectedMembers(g, blocks, Signed(g, blocks[j]));
      var i :| 0 <= i < |c| && c[i] == Signed(g, blocks[j]);
    }
  }

  /** The result has thinking first, as documented, exactly when the content begins with another
      block or holds no thinking block with a resolvable signature behind another block. */
  lemma ThinkingFirstIff(g: Signer, blocks: seq<Block>)
    ensures ThinkingFirst(Processed(g, blocks)) <==>
            (blocks != [] && blocks[0].kind != "thinking") || !KeptBehindOther(g, blocks)
  {
    NeedsReorderMeans(blocks);
    hide Reorder, Collected, NeedsReorder, ThinkingFirst;
    ReorderFixed(Collected(g, blocks));
    CollectedInOrder(g, blocks);
  }

  // ----- Fast path and slow path -------------------------------------------------------------

  datatype ThinkingResult = ThinkingResult(signature: string, index: nat, keep: bool)

  /** What one scan of the content finds. */
  datatype Analysis = Analysis(results: seq<ThinkingResult>, toolUses: seq<nat>)

  function Analyze(g: Signer, blocks: seq<Block>): (a: Analysis)
    ensures forall k :: 0 <= k < |a.results| ==> a.results[k].index < |blocks|
    ensures forall k :: 0 <= k < |a.toolUses| ==> a.toolUses[k] < |blocks|
  {
    if blocks == [] then Analysis([], [])
    else
      var n := |blocks| - 1;
      var a := Analyze(g, blocks[..n]);
      if IsThinking(blocks[n]) then
        a.(results := a.results + [ThinkingResult(Resolve(g, blocks[n]), n, Resolve(g, blocks[n]) != "")])
      else if IsToolUse(blocks[n]) && blocks[n].signature.Some? then a.(toolUses := a.toolUses + [n])
      else a
  }

  function Unkept(results: seq<ThinkingResult>): nat {
    if results == [] then 0
    else Unkept(results[..|results| - 1]) + if results[|results| - 1].keep then 0 else 1
  }

  lemma {:induction false} UnkeptCounts(g: Signer, blocks: seq<Block>)
    ensures |Collected(g, blocks)| + Unkept(Analyze(g, blocks).results) == |blocks|
  {
    hide Resolve;
    if blocks != [] {
      UnkeptCounts(g, blocks[..|blocks| - 1]);
    }
  }

  /** Setting each kept signature at its own path. */
  function SetSignatures(blocks: seq<Block>, results: seq<ThinkingResult>): (r: seq<Block>)
    requires forall k :: 0 <= k < |results| ==> results[k].index < |blocks|
    ensures |r| == |blocks|
  {
    if results == [] then blocks
    else
      var bs, x := SetSignatures(blocks, results[..|results| - 1]), results[|results| - 1];
      if x.keep then bs[x.index := bs[x.index].(signature := Some(x.signature))] else bs
  }

  /** Deleting the signature at each listed path. */
  function DeleteSignatures(blocks: seq<Block>, indexes: seq<nat>): (r: seq<Block>)
    requires forall k :: 0 <= k < |indexes| ==> indexes[k] < |blocks|
    ensures |r| == |blocks|
  {
    if indexes == [] then blocks
    else
      var bs, i := DeleteSignatures(blocks, indexes[..|indexes| - 1]), indexes[|indexes| - 1];
      bs[i := bs[i].(signature := None)]
  }

  lemma {:induction false} SetAt(g: Signer, all: seq<Block>, n: nat, i: nat)
    requires n <= |all| && i < |all|
    ensures var bs := SetSignatures(all, Analyze(g, all[..n]).results);
            bs[i] == if i < n && IsThinking(all[i]) && Resolve(g, all[i]) != "" then Signed(g, all[i]) else all[i]
  {
    hide Resolve, SetSignatures, Analyze;
    if n == 0 {
      NothingToSet(g, all);
    } else {
      SetAt(g, all, n - 1, i);
      SetOne(g, all, n - 1);
    }
  }

  lemma NothingToSet(g: Signer, all: seq<Block>)
    ensures SetSignatures(all, Analyze(g, all[..0]).results) == all
  {
  }

  /** The scan of one more block sets the signature of that block, if it is kept. */
  lemma SetOne(g: Signer, all: seq<Block>, n: nat)
    requires n < |all|
    ensures var before := SetSignatures(all, Analyze(g, all[..n]).results);
            SetSignatures(all, Analyze(g, all[..n + 1]).results)
            == if IsThinking(all[n]) && Resolve(g, all[n]) != ""
               then before[n := before[n].(signature := Some(Resolve(g, all[n])))] else before
  {
    hide Resolve;
    assert all[..n + 1][..n] == all[..n];
    var before := Analyze(g, all[..n]);
    if IsThinking(all[n]) {
      var found := ThinkingResult(Resolve(g, all[n]), n, Resolve(g, all[n]) != "");
      assert Analyze(g, all[..n + 1]).results == before.results + [found];
      assert (before.results + [found])[..|before.results|] == before.results;
    } else {
      assert Analyze(g, all[..n + 1]).results == before.results;
    }
  }

  lemma {:induction false} DeleteAt(g: Signer, all: seq<Block>, bs: seq<Block>, n: nat, i: nat)
    requires n <= |all| == |bs| && i < |all|
    ensures var r := DeleteSignatures(bs, Analyze(g, all[..n]).toolUses);
            r[i] == if i < n && !IsThinking(all[i]) && IsToolUse(all[i]) && all[i].signature.Some? then bs[i].(signature := None) else bs[i]
  {
    hide Resolve;
    if n > 0 {
      assert all[..n][..n - 1] == all[..n - 1];
      DeleteAt(g, all, bs, n - 1, i);
    }
  }

  function Surgical(g: Signer, blocks: seq<Block>): seq<Block> {
    DeleteSignatures(SetSignatures(blocks, Analyze(g, blocks).results), Analyze(g, blocks).toolUses)
  }

  /** With nothing dropped and nothing reordered, editing the signatures in place gives
      the same content as rebuilding it. */
  lemma FastPathEqualsSlowPath(g: Signer, blocks: seq<Block>)
    requires AllKept(g, blocks)
    ensures Surgical(g, blocks) == Collected(g, blocks)
  {
    hide Resolve, Analyze, Collected, SetSignatures, DeleteSignatures;
    CollectedLength(g, blocks);
    var edited := SetSignatures(blocks, Analyze(g, blocks).results);
    assert blocks[..|blocks|] == blocks;
    forall i | 0 <= i < |blocks| ensures Surgical(g, blocks)[i] == Signed(g, blocks[i]) {
      assert Kept(g, blocks[i]);
      SetAt(g, blocks, |blocks|, i);
      DeleteAt(g, blocks, edited, |blocks|, i);
    }
  }

  // ----- A second pass -----------------------------------------------------------------------

  /** A signature that resolves to itself. */
  predicate Stable(g: Signer, text: string, signature: string) {
    '#' !in signature && (IsValidSignature(g.model, signature) || g.cached(text) == signature)
  }

  ghost predicate SelfSigned(g: Signer, b: Block) {
    Kept(g, b) && Signed(g, b) == b
  }

  lemma SelfSignedIff(g: Signer, b: Block)
    requires Kept(g, b)
    ensures SelfSigned(g, Signed(g, b)) <==> (IsThinking(b) ==> Stable(g, b.thinking, Resolve(g, b)))
  {
    hide IsValidSignature;
    if IsThinking(b) {
      var s := Resolve(g, b);
      HashMeansPrefixed(s);
    }
  }

  lemma HashMeansPrefixed(s: string)
    ensures ParseSignature(s).Some? <==> '#' in s
    ensures ParseSignature(s).Some? ==> |ParseSignature(s).value.signature| < |s|
  {
    assert Lines.IndexOf(s, '#') == |s| ==> s[..|s|] == s;
  }

  /** Content that a pass leaves as it is. */
  ghost predicate FixedContent(g: Signer, blocks: seq<Block>) {
    Collected(g, blocks) != [] && Processed(g, blocks) == blocks
  }

  lemma FixedContentIff(g: Signer, blocks: seq<Block>)
    requires blocks != []
    ensures FixedContent(g, blocks) <==> (forall b :: b in blocks ==> SelfSigned(g, b)) && !NeedsReorder(blocks)
  {
    hide Collected, NeedsReorder, Kept, Signed, Reorder;
    CollectedLength(g, blocks);
    ProcessedMembers(g, blocks, blocks[0]);
    if forall b :: b in blocks ==> SelfSigned(g, b) {
      forall i | 0 <= i < |blocks| ensures Kept(g, blocks[i]) && Signed(g, blocks[i]) == blocks[i] {
        assert blocks[i] in blocks;
      }
      assert SignedAll(g, blocks) == blocks;
    }
    if FixedContent(g, blocks) {
      assert AllKept(g, blocks);
      FixedIsInOrder(g, blocks);
      forall b | b in blocks ensures SelfSigned(g, b) {
        var i :| 0 <= i < |blocks| && blocks[i] == b;
        assert SignedAll(g, blocks)[i] == Signed(g, b);
      }
    }
  }

  lemma FixedIsInOrder(g: Signer, blocks: seq<Block>)
    requires blocks != [] && Processed(g, blocks) == blocks && AllKept(g, blocks)
    ensures !NeedsReorder(blocks)
  {
    hide Collected, NeedsReorder, Kept, Reorder, AllKept;
    NeedsReorderMeans(blocks);
    if NeedsReorder(blocks) {
      ReorderFixed(Collected(g, blocks));
      NotThinkingFirst(blocks);
    }
  }

  lemma NotThinkingFirst(blocks: seq<Block>)
    requires |blocks| > 0 && !IsThinking(blocks[0]) && HasThinking(blocks)
    ensures !ThinkingFirst(blocks)
  {
  }

  /** The content a single pass does not settle: it begins with thinking, no signature resolves
      before the first other block, and one does behind it. */
  ghost predicate LateThinking(g: Signer, blocks: seq<Block>) {
    var o := FirstIndex(blocks, false);
    && 0 < o < |blocks|
    && (forall i :: 0 <= i < o ==> !Kept(g, blocks[i]))
    && (exists j :: o < j < |blocks| && IsThinking(blocks[j]) && Kept(g, blocks[j]))
  }

  ghost predicate AllStable(g: Signer, blocks: seq<Block>) {
    forall i :: 0 <= i < |blocks| && IsThinking(blocks[i]) && Kept(g, blocks[i])
      ==> Stable(g, blocks[i].thinking, Resolve(g, blocks[i]))
  }

  /** The first block collected is the first one kept. */
  lemma {:induction false} FirstCollected(g: Signer, blocks: seq<Block>, k: nat)
    requires k < |blocks| && Kept(g, blocks[k])
    requires forall i :: 0 <= i < k ==> !Kept(g, blocks[i])
    ensures |Collected(g, blocks)| > 0 && Collected(g, blocks)[0] == Signed(g, blocks[k])
  {
    hide Kept, Signed;
    var front := blocks[..|blocks| - 1];
    if k < |front| {
      FirstCollected(g, front, k);
    } else {
      NoneCollected(g, front);
    }
  }

  lemma {:induction false} NoneCollected(g: Signer, blocks: seq<Block>)
    requires forall i :: 0 <= i < |blocks| ==> !Kept(g, blocks[i])
    ensures Collected(g, blocks) == []
  {
    hide Kept, Signed;
    if blocks != [] {
      NoneCollected(g, blocks[..|blocks| - 1]);
    }
  }

  lemma ThinkingCollected(g: Signer, blocks: seq<Block>)
    ensures HasThinking(Collected(g, blocks)) <==> exists j :: 0 <= j < |blocks| && IsThinking(blocks[j]) && Kept(g, blocks[j])
  {
    hide Collected, Kept, Signed;
    var c := Collected(g, blocks);
    if HasThinking(c) {
      var i :| 0 <= i < |c| && IsThinking(c[i]);
      CollectedMembers(g, blocks, c[i]);
      assert c[i] in c;
      var j :| 0 <= j < |blocks| && Kept(g, blocks[j]) && c[i] == Signed(g, blocks[j]);
      KindKept(g, blocks[j]);
    }
    if j :| 0 <= j < |blocks| && IsThinking(blocks[j]) && Kept(g, blocks[j]) {
      KindKept(g, blocks[j]);
      CollectedMembers(g, blocks, Signed(g, blocks[j]));
      var i :| 0 <= i < |c| && c[i] == Signed(g, blocks[j]);
    }
  }

  /** What a second pass would reorder, told from the content the first pass was given. */
  lemma SecondReorder(g: Signer, blocks: seq<Block>)
    requires Collected(g, blocks) != []
    ensures NeedsReorder(Processed(g, blocks)) <==> LateThinking(g, blocks)
  {
    NeedsReorderMeans(blocks);
    NeedsReorderMeans(Processed(g, blocks));
    hide Collected, NeedsReorder, Reorder, Kept, Signed, FirstIndex;
    var c, p := Collected(g, blocks), Processed(g, blocks);
    var o := FirstIndex(blocks, false);
    if blocks == [] {
      CollectedLength(g, blocks);
    } else if NeedsReorder(blocks) {
      ReorderFixed(c);
      if NeedsReorder(p) {
        NotThinkingFirst(p);
      }
    } else {
      ThinkingCollected(g, blocks);
      var k := FirstKept(g, blocks);
      FirstCollected(g, blocks, k);
      KindKept(g, blocks[k]);
      if o < |blocks| {
        OtherKept(g, blocks[o]);
      }
    }
  }

  lemma {:induction false} FirstKept(g: Signer, blocks: seq<Block>) returns (k: nat)
    requires Collected(g, blocks) != []
    ensures k < |blocks| && Kept(g, blocks[k]) && forall i :: 0 <= i < k ==> !Kept(g, blocks[i])
  {
    hide Kept, Signed;
    var front := blocks[..|blocks| - 1];
    if Collected(g, front) != [] {
      k := FirstKept(g, front);
    } else {
      k := |front|;
      forall i | 0 <= i < k ensures !Kept(g, blocks[i]) {
        if Kept(g, front[i]) {
          CollectedMembers(g, front, Signed(g, front[i]));
        }
      }
    }
  }

  lemma OtherKept(g: Signer, b: Block)
    requires !IsThinking(b)
    ensures Kept(g, b)
  {
  }

  lemma KindKept(g: Signer, b: Block)
    ensures IsThinking(Signed(g, b)) == IsThinking(b)
  {
  }

  /** A pass over its own output changes nothing exactly when every signature it kept
      resolves to itself and the content is not of the late-thinking family. */
  lemma SecondPassIff(g: Signer, blocks: seq<Block>)
    requires Collected(g, blocks) != []
    ensures FixedContent(g, Processed(g, blocks)) <==> AllStable(g, blocks) && !LateThinking(g, blocks)
  {
    hide Collected, NeedsReorder, Kept, Signed, Resolve, FixedContent, LateThinking, Stable, Processed;
    var c, p := Collected(g, blocks), Processed(g, blocks);
    ProcessedMembers(g, blocks, c[0]);
    FixedContentIff(g, p);
    SecondReorder(g, blocks);
    if AllStable(g, blocks) {
      forall x | x in p ensures SelfSigned(g, x) {
        ProcessedMembers(g, blocks, x);
        CollectedMembers(g, blocks, x);
        var i :| 0 <= i < |blocks| && Kept(g, blocks[i]) && x == Signed(g, blocks[i]);
        SelfSignedIff(g, blocks[i]);
      }
    }
    if forall x :: x in p ==> SelfSigned(g, x) {
      forall i | 0 <= i < |blocks| && IsThinking(blocks[i]) && Kept(g, blocks[i])
        ensures Stable(g, blocks[i].thinking, Resolve(g, blocks[i]))
      {
        var x := Signed(g, blocks[i]);
        ProcessedMembers(g, blocks, x);
        CollectedMembers(g, blocks, x);
        SelfSignedIff(g, blocks[i]);
      }
    }
  }

  // ----- Responses and the requests that send them back ----------------------------------------

  /** A response block with its signature prefixed by the model's group. */
  function PrefixBlock(model: string, b: Block): Block {
    if IsThinking(b) && ClientSignature(b) != "" then b.(signature := Some(FormatSignature(model, ClientSignature(b)))) else b
  }

  function PrefixContent(model: string, blocks: seq<Block>): (r: seq<Block>)
    ensures |r| == |blocks| && forall i :: 0 <= i < |r| ==> r[i] == PrefixBlock(model, blocks[i])
  {
    seq(|blocks|, i requires 0 <= i < |blocks| => PrefixBlock(model, blocks[i]))
  }

  /** The original content as a request may carry it: tool_use signatures removed. */
  function Cleaned(blocks: seq<Block>): (r: seq<Block>)
    ensures |r| == |blocks|
    ensures forall i :: 0 <= i < |r| ==> r[i] == CleanBlock(blocks[i])
  {
    seq(|blocks|, i requires 0 <= i < |blocks| => CleanBlock(blocks[i]))
  }

  function CleanBlock(b: Block): Block {
    if !IsThinking(b) && IsToolUse(b) then b.(signature := None) else b
  }

  ghost predicate FullySigned(blocks: seq<Block>) {
    forall i :: 0 <= i < |blocks| && IsThinking(blocks[i]) ==> ClientSignature(blocks[i]) != ""
  }

  lemma BlockRoundTrip(model: string, g: Signer, b: Block)
    requires IsThinking(b) ==> ClientSignature(b) != ""
    ensures '#' !in GetModelGroup(model) ==> Kept(g, PrefixBlock(model, b))
    ensures Kept(g, PrefixBlock(model, b)) ==>
              (Signed(g, PrefixBlock(model, b)) == CleanBlock(b) <==> !IsThinking(b) || '#' !in GetModelGroup(model))
  {
    hide GetModelGroup, FormatSignature, ParseSignature, IsValidSignature;
    if IsThinking(b) {
      PrefixRoundTrip(model, ClientSignature(b));
      FormatNotEmpty(model, ClientSignature(b));
    }
  }

  lemma FormatNotEmpty(model: string, signature: string)
    ensures FormatSignature(model, signature) != ""
  {
  }

  /** A response sent back gets its own signatures again and loses no block, whatever the
      cache holds and whatever model is asked, exactly when the model group is free of
      '#' (or there is no signature to restore). */
  lemma ResponseRoundTrip(model: string, g: Signer, blocks: seq<Block>)
    requires FullySigned(blocks)
    ensures Collected(g, PrefixContent(model, blocks)) == Cleaned(blocks)
            <==> '#' !in GetModelGroup(model) || !HasThinking(blocks)
    ensures Collected(g, PrefixContent(model, blocks)) == Cleaned(blocks) ==>
              Processed(g, PrefixContent(model, blocks)) == if NeedsReorder(blocks) then Reorder(Cleaned(blocks)) else Cleaned(blocks)
  {
    hide Collected, NeedsReorder, Kept, Signed, Reorder, PrefixBlock, CleanBlock, GetModelGroup;
    var sent := PrefixContent(model, blocks);
    CollectedLength(g, sent);
    forall i | 0 <= i < |blocks|
      ensures IsThinking(sent[i]) == IsThinking(blocks[i])
    {
      PrefixKeepsKind(model, blocks[i]);
    }
    NeedsReorderMeans(sent);
    NeedsReorderMeans(blocks);
    if '#' !in GetModelGroup(model) || !HasThinking(blocks) {
      forall i | 0 <= i < |blocks| ensures Kept(g, sent[i]) && Signed(g, sent[i]) == CleanBlock(blocks[i]) {
        BlockRoundTrip(model, g, blocks[i]);
        if !IsThinking(sent[i]) {
          OtherKept(g, sent[i]);
        }
      }
      assert AllKept(g, sent);
      assert SignedAll(g, sent) == Cleaned(blocks);
    } else {
      var i :| 0 <= i < |blocks| && IsThinking(blocks[i]);
      BlockRoundTrip(model, g, blocks[i]);
      if AllKept(g, sent) {
        assert Kept(g, sent[i]);
        assert SignedAll(g, sent)[i] != Cleaned(blocks)[i];
      }
    }
  }

  lemma PrefixKeepsKind(model: string, b: Block)
    ensures IsThinking(PrefixBlock(model, b)) == IsThinking(b)
  {
  }

  // ----- Two inputs on which the documented order does not come out ---------------------------------

  const SIGNATURE := seq(MIN_SIGNATURE_LEN, _ => 's')

  function Thought(signature: Option<string>): Block { Block("thinking", "t", signature, map[]) }

  const SAID := Block("text", "", None, map[])

  /** Thinking, text, thinking: the second thinking block stays behind the text. */
  lemma ReorderMissesLaterThinking(model: string)
    ensures var g := Signer(model, _ => "");
            var content := [Thought(Some(SIGNATURE)), SAID, Thought(Some(SIGNATURE))];
            Processed(g, content) == content && !ThinkingFirst(content)
  {
    var g := Signer(model, _ => "");
    var t := Thought(Some(SIGNATURE));
    var content := [t, SAID, t];
    SignatureIsValid(model);
    CollectedLength(g, content);
    assert SignedAll(g, content) == content;
    NeedsReorderMeans(content);
    assert !ThinkingFirst(content) by {
      assert IsThinking(content[2]) && !IsThinking(content[1]);
    }
  }

  lemma SignatureIsValid(model: string)
    ensures IsValidSignature(model, SIGNATURE) && ParseSignature(SIGNATURE).None?
  {
    HashMeansPrefixed(SIGNATURE);
    assert |GEMINI_SENTINEL| == 32;
  }

  function KeptPart(g: Signer, b: Block): seq<Block> {
    if Kept(g, b) then [Signed(g, b)] else []
  }

  lemma CollectedLast(g: Signer, front: seq<Block>, b: Block)
    ensures Collected(g, front + [b]) == Collected(g, front) + KeptPart(g, b)
  {
    hide Collected;
    CollectedSnoc(g, front, b);
  }

  lemma CollectOne(g: Signer, a: Block)
    ensures Collected(g, [a]) == KeptPart(g, a)
  {
    assert Collected(g, []) == [];
    hide Collected, KeptPart;
    CollectedLast(g, [], a);
    assert [] + [a] == [a];
  }

  lemma CollectTwo(g: Signer, a: Block, b: Block)
    ensures Collected(g, [a, b]) == KeptPart(g, a) + KeptPart(g, b)
  {
    hide Collected, KeptPart;
    CollectOne(g, a);
    CollectedLast(g, [a], b);
    assert [a] + [b] == [a, b];
  }

  lemma CollectThree(g: Signer, a: Block, b: Block, c: Block)
    ensures Collected(g, [a, b, c]) == KeptPart(g, a) + KeptPart(g, b) + KeptPart(g, c)
  {
    hide Collected, KeptPart;
    CollectTwo(g, a, b);
    CollectedLast(g, [a, b], c);
    assert [a, b] + [c] == [a, b, c];
  }

  /** The middle case of the example: what is kept of each of its blocks. */
  lemma KeptParts(model: string)
    ensures var g := Signer(model, _ => "");
            && KeptPart(g, Thought(None)) == [] && KeptPart(g, SAID) == [SAID]
            && KeptPart(g, Thought(Some(SIGNATURE))) == [Thought(Some(SIGNATURE))]
  {
    SignatureIsValid(model);
    hide IsValidSignature, ParseSignature;
  }

  lemma SwapsTwo(t: Block)
    requires IsThinking(t)
    ensures NeedsReorder([SAID, t]) && Reorder([SAID, t]) == [t, SAID]
  {
    SaidIsOther();
    hide NeedsReorder, Select;
    var two := [SAID] + [t];
    assert two == [SAID, t] && two[1] == t;
    NeedsReorderMeans(two);
    SelectSnoc([SAID], t);
  }

  lemma SaidIsOther()
    ensures SAID.kind != "thinking"
    ensures Select([SAID], true) == [] && Select([SAID], false) == [SAID]
  {
    SelectUniform([SAID], false);
  }

  /** Thinking without a signature, text, thinking: the first pass gives text, thinking;
      the second one swaps them. */
  lemma NotIdempotent(model: string)
    ensures var g := Signer(model, _ => "");
            var t := Thought(Some(SIGNATURE));
            && Processed(g, [Thought(None), SAID, t]) == [SAID, t]
            && Processed(g, [SAID, t]) == [t, SAID]
  {
    var g := Signer(model, _ => "");
    var u, t := Thought(None), Thought(Some(SIGNATURE));
    var content := [u, SAID, t];
    KeptParts(model);
    NeedsReorderMeans(content);
    SwapsTwo(t);
    hide NeedsReorder, Collected, Reorder, KeptPart;
    assert Collected(g, content) == [SAID, t] by {
      CollectThree(g, u, SAID, t);
    }
    assert Collected(g, [SAID, t]) == [SAID, t] by {
      CollectTwo(g, SAID, t);
    }
  }
}
