/**
 * Sequence and string helpers shared by both chat servers: Python's
 * `"\n".join(...)` and `str.split("\n")`, `b"".join(...)`-style
 * concatenation of chunks, and the search for the first occurrence of a
 * character.
 */
module Text {

  /** The position of the first `c` in `s`, or `|s|` when there is none. */
  function IndexOf<T(==)>(s: seq<T>, c: T): (i: nat)
    ensures i <= |s|
    ensures i < |s| ==> s[i] == c
    ensures forall j :: 0 <= j < i ==> s[j] != c
    ensures i == |s| <==> c !in s
  {
    if |s| == 0 then 0
    else if s[0] == c then 0
    else 1 + IndexOf(s[1..], c)
  }

  /** Searching past a prefix that does not hold `c` lands inside the rest. */
  lemma {:induction false} IndexOfAfter<T>(a: seq<T>, b: seq<T>, c: T)
    requires c !in a
    ensures IndexOf(a + b, c) == |a| + IndexOf(b, c)
  {
    if |a| == 0 {
      assert a + b == b;
    } else {
      assert (a + b)[0] == a[0] != c;
      assert (a + b)[1..] == a[1..] + b;
      IndexOfAfter(a[1..], b, c);
    }
  }

  /** The concatenation of a sequence of chunks, in order. */
  function Flatten<T>(chunks: seq<seq<T>>): seq<T>
  {
    if |chunks| == 0 then [] else chunks[0] + Flatten(chunks[1..])
  }

  /** The sum of the chunk lengths. */
  function TotalLength<T>(chunks: seq<seq<T>>): nat
  {
    if |chunks| == 0 then 0 else |chunks[0]| + TotalLength(chunks[1..])
  }

  lemma {:induction false} FlattenAppend<T>(a: seq<seq<T>>, b: seq<seq<T>>)
    ensures Flatten(a + b) == Flatten(a) + Flatten(b)
  {
    if |a| == 0 {
      assert a + b == b;
    } else {
      assert (a + b)[1..] == a[1..] + b;
      FlattenAppend(a[1..], b);
    }
  }

  /** Concatenating the chunks produces exactly as many elements as the chunks hold. */
  lemma {:induction false} FlattenLength<T>(chunks: seq<seq<T>>)
    ensures |Flatten(chunks)| == TotalLength(chunks)
  {
    if |chunks| > 0 {
      FlattenLength(chunks[1..]);
    }
  }

  /** Python's `"\n".join(parts)`: the empty list joins to the empty string. */
  function JoinLines(parts: seq<string>): string
  {
    if |parts| == 0 then ""
    else if |parts| == 1 then parts[0]
    else parts[0] + "\n" + JoinLines(parts[1..])
  }

  /** Python's `s.split("\n")`: always at least one piece. */
  function SplitLines(s: string): (parts: seq<string>)
    ensures |parts| >= 1
    decreases |s|
  {
    var i := IndexOf(s, '\n');
    if i == |s| then [s] else [s[..i]] + SplitLines(s[i + 1..])
  }

  lemma JoinCons(head: string, rest: seq<string>)
    requires |rest| >= 1
    ensures JoinLines([head] + rest) == head + "\n" + JoinLines(rest)
  {
    assert ([head] + rest)[1..] == rest;
  }

  lemma SplitAtNewline(s: string, i: nat)
    requires i == IndexOf(s, '\n') < |s|
    ensures SplitLines(s) == [s[..i]] + SplitLines(s[i + 1..])
  {
  }

  lemma Reassemble(s: string, i: nat)
    requires i < |s| && s[i] == '\n'
    ensures s[..i] + "\n" + s[i + 1..] == s
  {
    assert s == s[..i] + [s[i]] + s[i + 1..];
  }

  /** Joining the pieces of a split gives the original string back. */
  lemma {:induction false} JoinSplit(s: string)
    ensures JoinLines(SplitLines(s)) == s
    decreases |s|
  {
    var i := IndexOf(s, '\n');
    if i < |s| {
      var head, tail := s[..i], s[i + 1..];
      var rest := SplitLines(tail);
      JoinSplit(tail);
      SplitAtNewline(s, i);
      JoinCons(head, rest);
      Reassemble(s, i);
    } else {
      assert SplitLines(s) == [s];
    }
  }

  /** A newline-free piece, a newline, then the rest: the piece is split off first. */
  lemma SplitAfterPiece(head: string, tail: string)
    requires '\n' !in head
    ensures SplitLines(head + "\n" + tail) == [head] + SplitLines(tail)
  {
    var s := head + "\n" + tail;
    assert s == head + ("\n" + tail);
    IndexOfAfter(head, "\n" + tail, '\n');
    assert IndexOf(s, '\n') == |head|;
    SplitAtNewline(s, |head|);
    assert s[..|head|] == head;
    assert s[|head| + 1..] == tail;
  }

  /** Splitting a join of newline-free pieces gives the pieces back. */
  lemma {:induction false} SplitJoin(parts: seq<string>)
    requires |parts| >= 1
    requires forall k :: 0 <= k < |parts| ==> '\n' !in parts[k]
    ensures SplitLines(JoinLines(parts)) == parts
  {
    if |parts| > 1 {
      var head, rest := parts[0], parts[1..];
      assert JoinLines(parts) == head + "\n" + JoinLines(rest);
      SplitAfterPiece(head, JoinLines(rest));
      SplitJoin(rest);
      assert parts == [head] + rest;
    } else {
      assert IndexOf(parts[0], '\n') == |parts[0]|;
    }
  }
}
