/** Byte strings and the newline join used to build upload bodies (Go's `bytes.Join` with "\n"). */
module Bytes {

  newtype byte = b: int | 0 <= b < 256

  const Newline: byte := 10

  /** Sum of the lengths of all parts. */
  function TotalLength(parts: seq<seq<byte>>): (n: nat)
  {
    if parts == [] then 0 else |parts[0]| + TotalLength(parts[1..])
  }

  /** `bytes.Join(parts, []byte("\n"))`: one newline between consecutive parts, none after the last. */
  function Join(parts: seq<seq<byte>>): (body: seq<byte>)
  {
    if parts == [] then []
    else if |parts| == 1 then parts[0]
    else parts[0] + [Newline] + Join(parts[1..])
  }

  /** Cuts a byte string at every newline; the inverse of Join on newline-free parts. */
  function SplitLines(s: seq<byte>): (r: seq<seq<byte>>)
    ensures |r| >= 1
  {
    if s == [] then [[]]
    else
      var rest := SplitLines(s[1..]);
      if s[0] == Newline then [[]] + rest
      else [[s[0]] + rest[0]] + rest[1..]
  }

  /** No part contains the separator. */
  predicate NoNewlines(parts: seq<seq<byte>>)
  {
    forall i :: 0 <= i < |parts| ==> Newline !in parts[i]
  }

  lemma {:induction false} TotalLengthSnoc(parts: seq<seq<byte>>, x: seq<byte>)
    ensures TotalLength(parts + [x]) == TotalLength(parts) + |x|
  {
    if parts != [] {
      assert (parts + [x])[1..] == parts[1..] + [x];
      TotalLengthSnoc(parts[1..], x);
    }
  }

  /** A joined body is the payload bytes plus exactly one separator per gap. */
  lemma {:induction false} JoinLength(parts: seq<seq<byte>>)
    requires parts != []
    ensures |Join(parts)| == TotalLength(parts) + |parts| - 1
  {
    if |parts| > 1 {
      JoinLength(parts[1..]);
    }
  }

  /** Joining one more part appends a single newline and that part (the incremental join of buffer.go). */
  lemma {:induction false} JoinSnoc(parts: seq<seq<byte>>, x: seq<byte>)
    requires parts != []
    ensures Join(parts + [x]) == Join(parts) + [Newline] + x
  {
    if |parts| == 1 {
      assert parts + [x] == [parts[0], x];
      assert [parts[0], x][1..] == [x];
    } else {
      assert (parts + [x])[1..] == parts[1..] + [x];
      JoinSnoc(parts[1..], x);
    }
  }

  /** Splitting a newline-free prefix glues it onto the first line of the rest. */
  lemma {:induction false} SplitNewlineFree(p: seq<byte>, rest: seq<byte>)
    requires Newline !in p
    ensures SplitLines(p + rest) == [p + SplitLines(rest)[0]] + SplitLines(rest)[1..]
  {
    if p == [] {
      var r := SplitLines(rest);
      assert p + rest == rest;
      assert p + r[0] == r[0];
      assert r == [r[0]] + r[1..];
    } else {
      assert (p + rest)[0] == p[0];
      assert (p + rest)[1..] == p[1..] + rest;
      SplitNewlineFree(p[1..], rest);
      assert [p[0]] + (p[1..] + SplitLines(rest)[0]) == p + SplitLines(rest)[0];
    }
  }

  /** Round trip: the collector recovers the original lines from a joined body. */
  lemma {:induction false} SplitJoin(parts: seq<seq<byte>>)
    requires parts != [] && NoNewlines(parts)
    ensures SplitLines(Join(parts)) == parts
  {
    if |parts| == 1 {
      SplitNewlineFree(parts[0], []);
      assert parts[0] + [] == parts[0];
    } else {
      var tail := Join(parts[1..]);
      SplitNewlineFree(parts[0], [Newline] + tail);
      assert parts[0] + [Newline] + tail == parts[0] + ([Newline] + tail);
      assert ([Newline] + tail)[1..] == tail;
      assert SplitLines([Newline] + tail) == [[]] + SplitLines(tail);
      assert parts[0] + [] == parts[0];
      SplitJoin(parts[1..]);
      assert parts == [parts[0]] + parts[1..];
    }
  }

  /** Round trip the other way: joining the lines of any byte string gives it back. */
  lemma {:induction false} JoinSplit(s: seq<byte>)
    ensures Join(SplitLines(s)) == s
  {
    if s != [] {
      var rest := SplitLines(s[1..]);
      JoinSplit(s[1..]);
      if s[0] == Newline {
        assert ([[]] + rest)[1..] == rest;
      } else {
        var r := [[s[0]] + rest[0]] + rest[1..];
        assert r[1..] == rest[1..];
        if |rest| > 1 {
          assert Join(rest) == rest[0] + [Newline] + Join(rest[1..]);
        }
      }
      assert s == [s[0]] + s[1..];
    }
  }
}
