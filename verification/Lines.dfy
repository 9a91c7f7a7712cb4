/** Splitting on newlines and joining again, as bytes.Split and bytes.Join do. */
module Lines {

  ghost predicate NoNewline(s: string) {
    '\n' !in s
  }

  /** The pieces between newlines; there is always at least one. */
  function Split(s: string): (r: seq<string>)
    ensures |r| > 0
    ensures forall l :: l in r ==> NoNewline(l)
  {
    if s == [] then [""]
    else
      var rest := Split(s[1..]);
      if s[0] == '\n' then [""] + rest
      else
        assert forall l :: l in rest[1..] ==> l in rest;
        assert NoNewline([s[0]] + rest[0]) by {
          assert rest[0] in rest;
        }
        [[s[0]] + rest[0]] + rest[1..]
  }

  function Join(lines: seq<string>): string {
    if lines == [] then ""
    else if |lines| == 1 then lines[0]
    else lines[0] + "\n" + Join(lines[1..])
  }

  lemma {:induction false} JoinSplit(s: string)
    ensures Join(Split(s)) == s
  {
    if s != [] {
      JoinSplit(s[1..]);
      var rest := Split(s[1..]);
      if s[0] == '\n' {
        assert ([""] + rest)[1..] == rest;
        assert s == "\n" + s[1..];
      } else {
        var r := [[s[0]] + rest[0]] + rest[1..];
        assert r[1..] == rest[1..];
        assert Join(r) == [s[0]] + Join(rest);
        assert s == [s[0]] + s[1..];
      }
    }
  }

  /** The index of the first `c`, or the length when there is none. */
  function IndexOf(s: string, c: char): (n: nat)
    ensures n <= |s| && c !in s[..n]
    ensures n < |s| ==> s[n] == c
  {
    if s == [] || s[0] == c then 0
    else
      var n := IndexOf(s[1..], c);
      assert s == [s[0]] + s[1..];
      assert s[..n + 1] == [s[0]] + s[1..][..n];
      1 + n
  }

  lemma {:induction false} IndexOfAt(before: string, c: char, after: string)
    requires c !in before
    ensures IndexOf(before + [c] + after, c) == |before|
  {
    if before != [] {
      IndexOfAt(before[1..], c, after);
      assert (before + [c] + after)[1..] == before[1..] + [c] + after;
    }
  }

  /** Drops one trailing carriage return, as bytes.TrimSuffix(line, "\r") does. */
  function TrimCR(s: string): (t: string)
    ensures |t| <= |s| && t == s[..|t|]
  {
    if |s| > 0 && s[|s|-1] == '\r' then s[..|s|-1] else s
  }

  function TrimAll(lines: seq<string>): (r: seq<string>)
    ensures |r| == |lines| && forall i :: 0 <= i < |r| ==> r[i] == TrimCR(lines[i])
  {
    seq(|lines|, i requires 0 <= i < |lines| => TrimCR(lines[i]))
  }
}
