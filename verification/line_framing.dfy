/**
 Newline framing of a connection's receive buffer: the buffer is split at
 each '\n' into complete records, and the text after the last '\n' stays
 buffered until more data arrives.
 */
module LineFraming {

  const Newline: char := '\n'

  /** True when `s` holds no record delimiter. */
  predicate NoNewline(s: string)
  {
    Newline !in s
  }

  /** True when no line of `lines` holds a record delimiter. */
  predicate AllNoNewline(lines: seq<string>)
  {
    forall i :: 0 <= i < |lines| ==> NoNewline(lines[i])
  }

  /** The wire form of a sequence of records: each one followed by '\n'. */
  function Join(lines: seq<string>): string
  {
    if lines == [] then "" else lines[0] + [Newline] + Join(lines[1..])
  }

  /** Position of the first delimiter in `s`, the split point of
      Python's `s.split('\n', 1)`. */
  function FirstNewline(s: string): (k: nat)
    requires Newline in s
    ensures k < |s| && s[k] == Newline
    ensures NoNewline(s[..k])
  {
    if s[0] == Newline then 0
    else
      var k := 1 + FirstNewline(s[1..]);
      assert s[..k] == [s[0]] + s[1..][..k - 1];
      k
  }

  /** The first delimiter after a record without delimiters is the one
      that terminates it. */
  lemma {:induction false} FirstNewlineAfterLine(l: string, t: string)
    requires NoNewline(l)
    ensures Newline in l + [Newline] + t
    ensures FirstNewline(l + [Newline] + t) == |l|
    decreases |l|
  {
    var s := l + [Newline] + t;
    assert s[|l|] == Newline;
    if l != [] {
      assert s[0] == l[0];
      assert s[1..] == l[1..] + [Newline] + t;
      FirstNewlineAfterLine(l[1..], t);
    }
  }

  /** The complete records of a buffer, in arrival order, and the partial tail. */
  datatype Framed = Framed(lines: seq<string>, rest: string)

  /** Repeatedly takes the text before the first '\n' as a record while the
      buffer still holds a '\n' (`while '\n' in buffer: line, buffer =
      buffer.split('\n', 1)`). */
  function Drain(buffer: string): (r: Framed)
    ensures NoNewline(r.rest)
    ensures AllNoNewline(r.lines)
    decreases |buffer|
  {
    if Newline !in buffer then Framed([], buffer)
    else
      var k := FirstNewline(buffer);
      var tail := Drain(buffer[k + 1..]);
      JoinCons(buffer[..k], tail.lines);
      Framed([buffer[..k]] + tail.lines, tail.rest)
  }

  /** Framing loses nothing: the records, each followed by '\n', and then the
      leftover tail spell out the original buffer. */
  lemma {:induction false} DrainLossless(buffer: string)
    ensures Join(Drain(buffer).lines) + Drain(buffer).rest == buffer
    decreases |buffer|
  {
    if Newline in buffer {
      var k := FirstNewline(buffer);
      var line, after := buffer[..k], buffer[k + 1..];
      var tail := Drain(after);
      DrainLossless(after);
      assert Drain(buffer) == Framed([line] + tail.lines, tail.rest);
      SplitAround(buffer, k);
      LosslessStep(line, tail, after);
    }
  }

  /** One step of DrainLossless: a record in front of a lossless framing. */
  lemma LosslessStep(line: string, tail: Framed, after: string)
    requires Join(tail.lines) + tail.rest == after
    ensures Join([line] + tail.lines) + tail.rest == line + [Newline] + after
  {
    JoinCons(line, tail.lines);
  }

  /** A sequence is the part before position `k`, the element at `k`, and
      the part after it. */
  lemma SplitAround<T>(s: seq<T>, k: nat)
    requires k < |s|
    ensures s == s[..k] + [s[k]] + s[k + 1..]
  {
    assert s[k..] == [s[k]] + s[k + 1..];
    assert s == s[..k] + s[k..];
  }

  /** Putting one record in front of a run of records. */
  lemma JoinCons(l: string, ls: seq<string>)
    ensures Join([l] + ls) == l + [Newline] + Join(ls)
    ensures NoNewline(l) && AllNoNewline(ls) ==> AllNoNewline([l] + ls)
  {
    assert ([l] + ls)[1..] == ls;
    assert forall i :: 1 <= i < |[l] + ls| ==> ([l] + ls)[i] == ls[i - 1];
  }

  /** Joining two runs of records is joining each of them. */
  lemma {:induction false} JoinAppend(a: seq<string>, b: seq<string>)
    ensures Join(a + b) == Join(a) + Join(b)
    decreases |a|
  {
    if a != [] {
      assert (a + b)[0] == a[0];
      assert (a + b)[1..] == a[1..] + b;
      JoinAppend(a[1..], b);
    } else {
      assert a + b == b;
    }
  }

  /** Framing recovers exactly the records that were sent and the
      unterminated tail: `Drain` is the inverse of `Join`. */
  lemma {:induction false} DrainJoin(lines: seq<string>, rest: string)
    requires AllNoNewline(lines)
    requires NoNewline(rest)
    ensures Drain(Join(lines) + rest) == Framed(lines, rest)
    decreases |lines|
  {
    var buffer := Join(lines) + rest;
    if lines == [] {
      assert buffer == rest;
    } else {
      var l := lines[0];
      assert NoNewline(l);
      assert buffer == l + [Newline] + (Join(lines[1..]) + rest);
      FirstNewlineAfterLine(l, Join(lines[1..]) + rest);
      var k := FirstNewline(buffer);
      assert k == |l|;
      assert buffer[..k] == l;
      assert buffer[k + 1..] == Join(lines[1..]) + rest;
      forall i | 0 <= i < |lines[1..]|
        ensures NoNewline(lines[1..][i])
      {
        assert lines[1..][i] == lines[i + 1];
      }
      DrainJoin(lines[1..], rest);
      assert [l] + lines[1..] == lines;
    }
  }

  /** Framing does not depend on how the stream was cut into reads: draining
      the first read and then the leftover plus the second read yields the
      same records, in the same order, as draining both reads at once. */
  lemma ChunkingIndependent(c1: string, c2: string)
    ensures var r1 := Drain(c1);
            var r2 := Drain(r1.rest + c2);
            Drain(c1 + c2) == Framed(r1.lines + r2.lines, r2.rest)
  {
    var r1 := Drain(c1);
    var r2 := Drain(r1.rest + c2);
    DrainLossless(c1);
    DrainLossless(r1.rest + c2);
    ConcatFramings(r1, r2, c1, c2);
    AllNoNewlineAppend(r1.lines, r2.lines);
    DrainJoin(r1.lines + r2.lines, r2.rest);
  }

  /** The stream c1 + c2 spelled out from the records of both reads. */
  lemma ConcatFramings(r1: Framed, r2: Framed, c1: string, c2: string)
    requires Join(r1.lines) + r1.rest == c1
    requires Join(r2.lines) + r2.rest == r1.rest + c2
    ensures Join(r1.lines + r2.lines) + r2.rest == c1 + c2
  {
    JoinAppend(r1.lines, r2.lines);
    assert c1 + c2 == Join(r1.lines) + (r1.rest + c2);
  }

  lemma AllNoNewlineAppend(a: seq<string>, b: seq<string>)
    requires AllNoNewline(a) && AllNoNewline(b)
    ensures AllNoNewline(a + b)
  {
    forall i | 0 <= i < |a + b|
      ensures NoNewline((a + b)[i])
    {
      if i < |a| {
        assert (a + b)[i] == a[i];
      } else {
        assert (a + b)[i] == b[i - |a|];
      }
    }
  }
}
