/** Thinking-block signatures: model groups, the group prefix, validity, and the cache. */
module Signatures {
  import opened Options
  import opened Lines

  const MIN_SIGNATURE_LEN := 50
  const GEMINI_SENTINEL := "skip_thought_signature_validator"

  function LowerChar(c: char): char {
    if 'A' <= c <= 'Z' then ((c as int) + 32) as char else c
  }

  /** strings.ToLower on ASCII letters. */
  function ToLower(s: string): string {
    seq(|s|, i requires 0 <= i < |s| => LowerChar(s[i]))
  }

  predicate PartAt(s: string, part: string, i: int) {
    0 <= i <= |s| - |part| && s[i..i + |part|] == part
  }

  predicate Contains(s: string, part: string) {
    exists i :: 0 <= i <= |s| && PartAt(s, part, i)
  }

  function GetModelGroup(modelName: string): string {
    var lower := ToLower(modelName);
    if Contains(lower, "claude") then "claude"
    else if Contains(lower, "gpt") then "gpt"
    else if Contains(lower, "gemini") then "gemini"
    else modelName
  }

  lemma LowerTwice(s: string)
    ensures ToLower(ToLower(s)) == ToLower(s)
  {
  }

  /** The word stands somewhere in the name, in capitals, small letters or a mix. */
  ghost predicate Spelled(name: string, word: string) {
    exists i :: SpelledAt(name, word, i)
  }

  ghost predicate SpelledAt(name: string, word: string, i: int) {
    0 <= i <= |name| - |word|
    && forall j :: 0 <= j < |word| ==> name[i + j] == word[j] || name[i + j] as int + 32 == word[j] as int
  }

  ghost predicate SmallLetters(word: string) {
    forall j :: 0 <= j < |word| ==> 'a' <= word[j] <= 'z'
  }

  lemma SpelledIff(name: string, word: string)
    requires SmallLetters(word)
    ensures Contains(ToLower(name), word) <==> Spelled(name, word)
  {
    forall i ensures PartAt(ToLower(name), word, i) <==> SpelledAt(name, word, i) {
      PartIff(name, word, i);
    }
    if Spelled(name, word) {
      var i :| SpelledAt(name, word, i);
      assert PartAt(ToLower(name), word, i);
    }
  }

  lemma PartIff(name: string, word: string, i: int)
    requires SmallLetters(word)
    ensures PartAt(ToLower(name), word, i) <==> SpelledAt(name, word, i)
  {
    if 0 <= i <= |name| - |word| {
      var part := ToLower(name)[i..i + |word|];
      forall j | 0 <= j < |word|
        ensures part[j] == word[j] <==> name[i + j] == word[j] || name[i + j] as int + 32 == word[j] as int
      {
        assert part[j] == LowerChar(name[i + j]);
      }
    }
  }

  /** A model belongs to the first of the three families whose name its own name contains, however
      it is capitalised, and to itself if it contains none. */
  lemma GroupIs(modelName: string)
    ensures GetModelGroup(modelName) == if Spelled(modelName, "claude") then "claude"
                                        else if Spelled(modelName, "gpt") then "gpt"
                                        else if Spelled(modelName, "gemini") then "gemini"
                                        else modelName
  {
    hide Contains, ToLower, Spelled;
    SpelledIff(modelName, "claude");
    SpelledIff(modelName, "gpt");
    SpelledIff(modelName, "gemini");
  }

  /** The names of the known groups belong to themselves. */
  lemma KnownGroups()
    ensures GetModelGroup("claude") == "claude" && GetModelGroup("gpt") == "gpt" && GetModelGroup("gemini") == "gemini"
  {
    assert ToLower("claude") == "claude" && ToLower("gpt") == "gpt" && ToLower("gemini") == "gemini";
    assert PartAt("claude", "claude", 0) && PartAt("gpt", "gpt", 0) && PartAt("gemini", "gemini", 0);
    assert "gemini"[0] != "claude"[0];
    forall i | 0 <= i <= 6 ensures !PartAt("gemini", "gpt", i) {
      if i <= 3 {
        assert "gemini"[i..i + 3][1] == "gemini"[i + 1] && "gpt"[1] == 'p';
      }
    }
  }

  /** Grouping is a classification: a group is its own group, and spelling a model name in lower
      case lowers its group. */
  lemma GroupsAreStable(modelName: string)
    ensures GetModelGroup(GetModelGroup(modelName)) == GetModelGroup(modelName)
    ensures GetModelGroup(ToLower(modelName)) == ToLower(GetModelGroup(modelName))
  {
    hide Contains;
    KnownGroups();
    LowerTwice(modelName);
    assert ToLower("claude") == "claude" && ToLower("gpt") == "gpt" && ToLower("gemini") == "gemini";
  }

  /** Validity depends on the model through its group only. */
  predicate ValidInGroup(group: string, signature: string) {
    && signature != ""
    && if signature == GEMINI_SENTINEL then group == "gemini" else |signature| >= MIN_SIGNATURE_LEN
  }

  predicate IsValidSignature(modelName: string, signature: string) {
    ValidInGroup(GetModelGroup(modelName), signature)
  }

  function FormatSignature(modelName: string, signature: string): string {
    GetModelGroup(modelName) + "#" + signature
  }

  datatype Prefixed = Prefixed(group: string, signature: string)

  /** Cuts at the first '#'; None when there is none. */
  function ParseSignature(prefixed: string): Option<Prefixed> {
    var n := IndexOf(prefixed, '#');
    if n == |prefixed| then None else Some(Prefixed(prefixed[..n], prefixed[n + 1..]))
  }

  /** Prefixing undoes itself exactly for groups without '#'; any other group leaves a
      part of itself in front of the signature. */
  lemma PrefixRoundTrip(modelName: string, signature: string)
    ensures var group := GetModelGroup(modelName);
            var p := ParseSignature(FormatSignature(modelName, signature));
            && p.Some?
            && ('#' !in group ==> p.value == Prefixed(group, signature))
            && (p.value.signature == signature <==> '#' !in group)
  {
    hide GetModelGroup, IndexOf;
    var group := GetModelGroup(modelName);
    var n := IndexOf(group, '#');
    if n == |group| {
      assert group[..n] == group;
      IndexOfAt(group, '#', signature);
    } else {
      var tail := group[n + 1..] + "#" + signature;
      assert FormatSignature(modelName, signature) == group[..n] + ['#'] + tail;
      IndexOfAt(group[..n], '#', tail);
      assert |tail| > |signature|;
    }
  }

  /** The signature cache in front of a key-value store. `hash` is the truncated SHA-256
      of the thinking text; only that it is a function matters. */
  class SignatureCache {
    const hash: string -> string
    var entries: map<(string, string), string>

    /** Nothing stored under a group is invalid for that group. */
    ghost predicate Valid()
      reads this
    {
      forall k :: k in entries ==> ValidInGroup(k.0, entries[k])
    }

    constructor (hash: string -> string)
      ensures Valid() && entries == map[] && this.hash == hash
    {
      this.hash, entries := hash, map[];
    }

    function Get(modelName: string, text: string): (s: string)
      requires Valid()
      reads this
      ensures s == "" || IsValidSignature(modelName, s)
    {
      var key := (GetModelGroup(modelName), hash(text));
      if key in entries then entries[key] else ""
    }

    method Set(modelName: string, text: string, signature: string)
      requires Valid()
      modifies this
      ensures Valid()
      ensures IsValidSignature(modelName, signature) ==>
                entries == old(entries)[(GetModelGroup(modelName), hash(text)) := signature]
      ensures !IsValidSignature(modelName, signature) ==> entries == old(entries)
    {
      if !IsValidSignature(modelName, signature) {
        return;
      }
      entries := entries[(GetModelGroup(modelName), hash(text)) := signature];
    }
  }

  /** What is stored comes back: a valid signature, to every model of the same group, under every text
      with the same hash. Any other question is answered as if nothing had been stored. */
  method SetThenGet(cache: SignatureCache, modelName: string, text: string, signature: string, other: string, text': string)
    returns (s: string)
    requires cache.Valid()
    modifies cache
    ensures cache.Valid()
    ensures s == if IsValidSignature(modelName, signature) && GetModelGroup(other) == GetModelGroup(modelName)
                    && cache.hash(text') == cache.hash(text)
                 then signature else old(cache.Get(other, text'))
    ensures old(cache.entries) == map[] && (GetModelGroup(other) != GetModelGroup(modelName) || cache.hash(text') != cache.hash(text)) ==>
              s == ""
  {
    hide GetModelGroup;
    cache.Set(modelName, text, signature);
    s := cache.Get(other, text');
  }
}
