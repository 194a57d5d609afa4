/** Newline-delimited framing: a byte string is its complete lines followed by an unfinished tail. */
module Framing {
  import opened Protocol

  predicate NoLf(s: string) { forall i | 0 <= i < |s| :: s[i] != LF }

  /** Position of the first line feed, or the length when there is none. */
  function FirstLf(s: string): (i: nat)
    ensures i <= |s| && NoLf(s[..i])
    ensures i < |s| ==> s[i] == LF
  {
    if s == [] || s[0] == LF then 0
    else
      var j := FirstLf(s[1..]);
      assert s[..j + 1] == [s[0]] + s[1..][..j];
      j + 1
  }

  /** The complete lines of `s`, without their line feeds. */
  function Lines(s: string): seq<string>
    decreases |s|
  {
    var i := FirstLf(s);
    if i == |s| then [] else [s[..i]] + Lines(s[i + 1..])
  }

  /** What follows the last line feed of `s`. */
  function Tail(s: string): string
    decreases |s|
  {
    var i := FirstLf(s);
    if i == |s| then s else Tail(s[i + 1..])
  }

  function Join(lines: seq<string>): string {
    if lines == [] then [] else lines[0] + [LF] + Join(lines[1..])
  }

  function Flat(chunks: seq<string>): string {
    if chunks == [] then [] else Flat(chunks[..|chunks| - 1]) + chunks[|chunks| - 1]
  }

  lemma FirstLfOf(line: string, rest: string)
    requires NoLf(line)
    ensures FirstLf(line + [LF] + rest) == |line|
    ensures FirstLf(line) == |line|
  {
    var s := line + [LF] + rest;
    var i := FirstLf(s);
    assert forall k | 0 <= k < |line| :: s[k] == line[k];
    assert s[|line|] == LF;
    assert forall k | 0 <= k < i :: s[..i][k] == s[k];
  }

  lemma {:induction false} SplitParts(s: string)
    ensures NoLf(Tail(s))
    ensures forall i | 0 <= i < |Lines(s)| :: NoLf(Lines(s)[i])
    decreases |s|
  {
    var i := FirstLf(s);
    if i < |s| {
      SplitParts(s[i + 1..]);
    } else {
      assert s[..i] == s;
    }
  }

  /** Lines and Tail are a decomposition of `s` ... */
  lemma {:induction false} SplitJoin(s: string)
    ensures Join(Lines(s)) + Tail(s) == s
    decreases |s|
  {
    var i := FirstLf(s);
    if i < |s| {
      Cut(s, i);
      SplitJoin(s[i + 1..]);
      JoinFirst(s[..i], Lines(s[i + 1..]), Tail(s[i + 1..]));
    }
  }

  lemma Cut(s: string, i: nat)
    requires i < |s| && s[i] == LF
    ensures s == s[..i] + [LF] + s[i + 1..]
  {
  }

  lemma JoinFirst(line: string, lines: seq<string>, tail: string)
    ensures Join([line] + lines) + tail == line + [LF] + (Join(lines) + tail)
  {
    assert ([line] + lines)[1..] == lines;
  }

  /** ... and the only one. */
  lemma {:induction false} SplitUnique(lines: seq<string>, tail: string)
    requires forall i | 0 <= i < |lines| :: NoLf(lines[i])
    requires NoLf(tail)
    ensures Lines(Join(lines) + tail) == lines
    ensures Tail(Join(lines) + tail) == tail
  {
    if lines == [] {
      FirstLfOf(tail, []);
      assert Join(lines) + tail == tail;
    } else {
      var rest := Join(lines[1..]) + tail;
      var s := Join(lines) + tail;
      assert s == lines[0] + [LF] + rest;
      FirstLfOf(lines[0], rest);
      assert s[..|lines[0]|] == lines[0];
      assert s[|lines[0]| + 1..] == rest;
      SplitUnique(lines[1..], tail);
      assert [lines[0]] + lines[1..] == lines;
    }
  }

  /** Splitting can be done piece by piece, carrying the tail. */
  lemma {:induction false} SplitAppend(a: string, b: string)
    ensures Lines(a + b) == Lines(a) + Lines(Tail(a) + b)
    ensures Tail(a + b) == Tail(Tail(a) + b)
    decreases |a|
  {
    var i := FirstLf(a);
    if i < |a| {
      assert a + b == a[..i] + [LF] + (a[i + 1..] + b);
      FirstLfOf(a[..i], a[i + 1..] + b);
      assert (a + b)[..i] == a[..i];
      assert (a + b)[i + 1..] == a[i + 1..] + b;
      SplitAppend(a[i + 1..], b);
    }
  }
}
