/**
 * ProcessWriter.Write and Flush (internal/logger/process_writer.go): cutting a byte stream that
 * arrives in arbitrary pieces into lines.
 */
module LineSplitter {
  import opened Bytes

  const NEWLINE: byte := 10
  const CARRIAGE_RETURN: byte := 13
  const MAX_BUFFER := 65536

  /** bytes.IndexByte of a newline. */
  function IndexNewline(s: seq<byte>): (i: int)
    ensures -1 <= i < |s|
  {
    if s == [] then -1
    else if s[0] == NEWLINE then 0
    else
      var i := IndexNewline(s[1..]);
      if i < 0 then -1 else i + 1
  }

  lemma {:induction false} IndexNewlineFinds(s: seq<byte>)
    ensures IndexNewline(s) >= 0 ==> s[IndexNewline(s)] == NEWLINE
    ensures forall k :: 0 <= k < (if IndexNewline(s) < 0 then |s| else IndexNewline(s)) ==> s[k] != NEWLINE
  {
    if s != [] && s[0] != NEWLINE {
      IndexNewlineFinds(s[1..]);
      assert forall k :: 0 < k < |s| ==> s[k] == s[1..][k - 1];
    }
  }

  /** strings.TrimSuffix of a carriage return. */
  function Trimmed(line: seq<byte>): seq<byte> {
    if line != [] && line[|line| - 1] == CARRIAGE_RETURN then line[..|line| - 1] else line
  }

  /** The complete lines of `s`. */
  function Complete(s: seq<byte>): seq<seq<byte>>
    decreases |s|
  {
    var i := IndexNewline(s);
    if i < 0 then [] else [Trimmed(s[..i])] + Complete(s[i + 1..])
  }

  /** What follows the last newline of `s`. */
  function Rest(s: seq<byte>): seq<byte>
    decreases |s|
  {
    var i := IndexNewline(s);
    if i < 0 then s else Rest(s[i + 1..])
  }

  /** The lines of a whole stream: the complete ones, then an unterminated last one as it is. */
  function Lines(s: seq<byte>): seq<seq<byte>> {
    Complete(s) + Flushed(Rest(s))
  }

  /** What one Write passes on. */
  function Passed(buffer: seq<byte>, p: seq<byte>): seq<seq<byte>> {
    Complete(buffer + p) + if |Rest(buffer + p)| > MAX_BUFFER then [Rest(buffer + p)] else []
  }

  /** What one Write keeps. */
  function Kept(buffer: seq<byte>, p: seq<byte>): seq<byte> {
    if |Rest(buffer + p)| > MAX_BUFFER then [] else Rest(buffer + p)
  }

  function Flushed(buffer: seq<byte>): seq<seq<byte>> {
    if buffer == [] then [] else [buffer]
  }

  class ProcessWriter {
    var buffer: seq<byte>
    var lines: seq<seq<byte>>

    constructor ()
      ensures buffer == [] && lines == []
    {
      buffer, lines := [], [];
    }

    /** processLine, seen from here. */
    method ProcessLine(line: seq<byte>)
      modifies this`lines
      ensures lines == old(lines) + [line]
    {
      lines := lines + [line];
    }

    method Write(p: seq<byte>)
      modifies this
      ensures lines == old(lines) + Passed(old(buffer), p)
      ensures buffer == Kept(old(buffer), p)
    {
      hide Complete, Rest, IndexNewline;
      buffer := buffer + p;
      ghost var all, done := buffer, [];
      assert done + Complete(buffer) == Complete(buffer);
      while true
        invariant lines == old(lines) + done
        invariant Complete(all) == done + Complete(buffer) && Rest(all) == Rest(buffer)
        decreases |buffer|
      {
        IndexNewlineFinds(buffer);
        var i := IndexNewline(buffer);
        if i < 0 {
          NoNewline(buffer);
          break;
        }
        FirstNewline(buffer, i);
        var line := buffer[..i];
        if line != [] && line[|line| - 1] == CARRIAGE_RETURN {
          line := line[..|line| - 1];
        }
        assert done + ([line] + Complete(buffer[i + 1..])) == (done + [line]) + Complete(buffer[i + 1..]);
        buffer := buffer[i + 1..];
        ProcessLine(line);
        done := done + [line];
      }
      assert done + [] == done;
      if |buffer| > MAX_BUFFER {
        var partial := buffer;
        buffer := [];
        ProcessLine(partial);
      }
    }

    method Flush()
      modifies this
      ensures lines == old(lines) + Flushed(old(buffer)) && buffer == []
    {
      if buffer != [] {
        var line := buffer;
        buffer := [];
        ProcessLine(line);
      }
    }
  }

  // ----- how the cutting of the stream matters

  function Concat(chunks: seq<seq<byte>>): seq<byte>
    decreases |chunks|
  {
    if chunks == [] then [] else chunks[0] + Concat(chunks[1..])
  }

  /** The lines that come out of a Write for each chunk and a final Flush. */
  function Output(buffer: seq<byte>, chunks: seq<seq<byte>>): seq<seq<byte>>
    decreases |chunks|
  {
    if chunks == [] then Flushed(buffer)
    else Passed(buffer, chunks[0]) + Output(Kept(buffer, chunks[0]), chunks[1..])
  }

  lemma FirstNewline(s: seq<byte>, i: nat)
    requires i < |s| && s[i] == NEWLINE && forall k :: 0 <= k < i ==> s[k] != NEWLINE
    ensures IndexNewline(s) == i
    ensures Complete(s) == [Trimmed(s[..i])] + Complete(s[i + 1..]) && Rest(s) == Rest(s[i + 1..])
  {
    IndexNewlineFinds(s);
  }

  lemma NoNewline(s: seq<byte>)
    requires forall k :: 0 <= k < |s| ==> s[k] != NEWLINE
    ensures IndexNewline(s) == -1 && Complete(s) == [] && Rest(s) == s
  {
    IndexNewlineFinds(s);
  }

  lemma {:induction false} RestHasNone(s: seq<byte>)
    ensures forall k :: 0 <= k < |Rest(s)| ==> Rest(s)[k] != NEWLINE
    decreases |s|
  {
    IndexNewlineFinds(s);
    if IndexNewline(s) >= 0 {
      RestHasNone(s[IndexNewline(s) + 1..]);
    }
  }

  /** Each line followed by a newline. */
  function Terminated(lines: seq<seq<byte>>): seq<byte>
    decreases |lines|
  {
    if lines == [] then [] else lines[0] + [NEWLINE] + Terminated(lines[1..])
  }

  /** Nothing is lost: without carriage returns the lines give back the stream. */
  lemma {:induction false} SplitLosesNothing(s: seq<byte>)
    requires CARRIAGE_RETURN !in s
    ensures Terminated(Complete(s)) + Rest(s) == s
    decreases |s|
  {
    hide Complete, Rest, IndexNewline;
    IndexNewlineFinds(s);
    var i := IndexNewline(s);
    if i < 0 {
      NoNewline(s);
    } else {
      FirstNewline(s, i);
      SplitLosesNothing(s[i + 1..]);
      assert Trimmed(s[..i]) == s[..i];
      var lines := Complete(s);
      assert lines[0] == s[..i] && lines[1..] == Complete(s[i + 1..]);
      assert s == s[..i] + [NEWLINE] + s[i + 1..];
    }
  }

  /** A line as it came in, before a carriage return at its end was cut off. */
  ghost predicate CutFrom(line: seq<byte>, raw: seq<byte>) {
    && NEWLINE !in raw
    && if raw != [] && raw[|raw| - 1] == CARRIAGE_RETURN then raw == line + [CARRIAGE_RETURN] else raw == line
  }

  ghost predicate AllCutFrom(lines: seq<seq<byte>>, raw: seq<seq<byte>>) {
    |lines| == |raw| && forall i :: 0 <= i < |raw| ==> CutFrom(lines[i], raw[i])
  }

  /** Whatever the stream, what came in is the lines with at most one carriage return each, ended by newlines. */
  lemma {:induction false} SplitExactly(s: seq<byte>) returns (raw: seq<seq<byte>>)
    ensures AllCutFrom(Complete(s), raw) && Terminated(raw) + Rest(s) == s && NEWLINE !in Rest(s)
    decreases |s|
  {
    IndexNewlineFinds(s);
    var i := IndexNewline(s);
    if i < 0 {
      raw := [];
    } else {
      var rest := SplitExactly(s[i + 1..]);
      TrimmedFrom(s[..i]);
      assert Complete(s) == [Trimmed(s[..i])] + Complete(s[i + 1..]) && Rest(s) == Rest(s[i + 1..]);
      raw := [s[..i]] + rest;
      hide Complete, Rest, Trimmed, CutFrom, Terminated, AllCutFrom, IndexNewline;
      OneCutMore(Trimmed(s[..i]), s[..i], Complete(s[i + 1..]), rest);
      OneTerminatedMore(s, i, rest, Rest(s));
    }
  }

  lemma OneCutMore(line: seq<byte>, r: seq<byte>, lines: seq<seq<byte>>, raw: seq<seq<byte>>)
    requires CutFrom(line, r) && AllCutFrom(lines, raw)
    ensures AllCutFrom([line] + lines, [r] + raw)
  {
    hide CutFrom;
  }

  lemma OneTerminatedMore(s: seq<byte>, i: nat, lines: seq<seq<byte>>, tail: seq<byte>)
    requires i < |s| && s[i] == NEWLINE && Terminated(lines) + tail == s[i + 1..]
    ensures Terminated([s[..i]] + lines) + tail == s
  {
    TerminatedFirst(s[..i], lines);
    hide Terminated;
    Regroup(s[..i] + [NEWLINE], Terminated(lines), tail);
    assert s == s[..i] + [NEWLINE] + s[i + 1..];
  }

  lemma TerminatedFirst(line: seq<byte>, lines: seq<seq<byte>>)
    ensures Terminated([line] + lines) == line + [NEWLINE] + Terminated(lines)
  {
    assert ([line] + lines)[1..] == lines;
  }

  lemma Regroup(a: seq<byte>, b: seq<byte>, c: seq<byte>)
    ensures (a + b) + c == a + (b + c)
  {
  }

  lemma TrimmedFrom(raw: seq<byte>)
    requires NEWLINE !in raw
    ensures CutFrom(Trimmed(raw), raw)
  {
  }

  /** A stream may be split at any point if the unfinished line is carried over. */
  lemma {:induction false} SplitConcat(a: seq<byte>, b: seq<byte>)
    ensures Complete(a + b) == Complete(a) + Complete(Rest(a) + b)
    ensures Rest(a + b) == Rest(Rest(a) + b)
    decreases |a|
  {
    hide Complete, Rest, IndexNewline, Trimmed;
    IndexNewlineFinds(a);
    var i := IndexNewline(a);
    if i < 0 {
      NoNewline(a);
      assert [] + Complete(a + b) == Complete(a + b);
    } else {
      FirstNewline(a, i);
      FirstNewline(a + b, i);
      assert (a + b)[..i] == a[..i];
      assert (a + b)[i + 1..] == a[i + 1..] + b;
      SplitConcat(a[i + 1..], b);
      var line, mid, after := Trimmed(a[..i]), Complete(a[i + 1..]), Complete(Rest(a) + b);
      assert [line] + (mid + after) == ([line] + mid) + after;
    }
  }

  /** No line is longer than the buffer; an unterminated last line may exceed it by one byte. */
  predicate ShortLines(s: seq<byte>)
    decreases |s|
  {
    var i := IndexNewline(s);
    if i < 0 then |s| <= MAX_BUFFER + 1 else i <= MAX_BUFFER && ShortLines(s[i + 1..])
  }

  /** Short of the whole stream, the kept part never outgrows the buffer. */
  lemma {:induction false} PrefixFits(s: seq<byte>, n: nat)
    requires ShortLines(s) && n < |s|
    ensures |Rest(s[..n])| <= MAX_BUFFER
    decreases |s|
  {
    hide Complete, Rest, IndexNewline, Trimmed;
    var p := s[..n];
    IndexNewlineFinds(p);
    IndexNewlineFinds(s);
    var j := IndexNewline(p);
    if j >= 0 {
      assert s[j] == NEWLINE && forall k :: 0 <= k < j ==> s[k] == p[k];
      FirstNewline(s, j);
      FirstNewline(p, j);
      assert p[j + 1..] == s[j + 1..][..n - j - 1];
      PrefixFits(s[j + 1..], n - j - 1);
    } else {
      NoNewline(p);
      assert forall k :: 0 <= k < n ==> s[k] == p[k] != NEWLINE;
    }
  }

  /** With nothing more to come, the final Flush passes on what was kept. */
  lemma {:induction false} OutputOfNothing(buffer: seq<byte>, chunks: seq<seq<byte>>)
    requires Concat(chunks) == [] && |buffer| <= MAX_BUFFER && forall k :: 0 <= k < |buffer| ==> buffer[k] != NEWLINE
    ensures Output(buffer, chunks) == Flushed(buffer)
    decreases |chunks|
  {
    if chunks != [] {
      assert chunks[0] == [] && buffer + [] == buffer;
      NoNewline(buffer);
      OutputOfNothing(buffer, chunks[1..]);
      assert Passed(buffer, []) == [] && [] + Flushed(buffer) == Flushed(buffer);
    }
  }

  /** With short lines, what comes out after the first `n` bytes depends only on the stream. */
  lemma {:induction false} OutputOfRest(s: seq<byte>, n: nat, chunks: seq<seq<byte>>)
    requires ShortLines(s) && n <= |s| && Concat(chunks) == s[n..] && |Rest(s[..n])| <= MAX_BUFFER
    ensures Complete(s[..n]) + Output(Rest(s[..n]), chunks) == Lines(s)
    decreases |chunks|
  {
    hide Complete, Rest, IndexNewline, Trimmed, ShortLines;
    var done, kept := Complete(s[..n]), Rest(s[..n]);
    if chunks == [] {
      assert n == |s| && s[..n] == s;
    } else {
      var m := n + |chunks[0]|;
      CutPoint(s, n, chunks);
      SplitConcat(s[..n], chunks[0]);
      var more, rest := Complete(kept + chunks[0]), Rest(kept + chunks[0]);
      if |rest| <= MAX_BUFFER {
        OutputOfRest(s, m, chunks[1..]);
        assert Passed(kept, chunks[0]) == more;
        assert done + (more + Output(rest, chunks[1..])) == (done + more) + Output(rest, chunks[1..]);
      } else {
        if m < |s| {
          PrefixFits(s, m);
        }
        assert m == |s| && s[..m] == s;
        OutputOfNothing([], chunks[1..]);
        assert done + ((more + [rest]) + []) == (done + more) + [rest];
      }
    }
  }

  lemma CutPoint(s: seq<byte>, n: nat, chunks: seq<seq<byte>>)
    requires chunks != [] && n <= |s| && Concat(chunks) == s[n..]
    ensures n + |chunks[0]| <= |s| && s[..n + |chunks[0]|] == s[..n] + chunks[0]
    ensures Concat(chunks[1..]) == s[n + |chunks[0]|..]
  {
    var m := n + |chunks[0]|;
    assert |chunks[0]| <= |s[n..]|;
    assert s[n..][..|chunks[0]|] == chunks[0];
    assert s[n..][|chunks[0]|..] == Concat(chunks[1..]);
    assert s[n..][|chunks[0]|..] == s[m..];
  }

  /** One Write of everything yields the lines of the stream, however long they are. */
  lemma OneWrite(s: seq<byte>)
    ensures Output([], [s]) == Lines(s)
  {
    assert [] + s == s;
    assert [s][1..] == [];
    assert (Complete(s) + [Rest(s)]) + [] == Complete(s) + [Rest(s)];
    assert (Complete(s) + []) + Flushed(Rest(s)) == Complete(s) + Flushed(Rest(s));
  }

  /** The lines do not depend on how the stream is cut into Writes. */
  ghost predicate ChunkingInvisible(s: seq<byte>) {
    forall chunks :: Concat(chunks) == s ==> Output([], chunks) == Output([], [s])
  }

  /** That is so exactly for streams with short lines. */
  lemma ChunkingInvisibleExactly(s: seq<byte>)
    ensures ChunkingInvisible(s) <==> ShortLines(s)
  {
    OneWrite(s);
    if ShortLines(s) {
      forall chunks | Concat(chunks) == s ensures Output([], chunks) == Lines(s) {
        assert s[..0] == [] && s[0..] == s;
        OutputOfRest(s, 0, chunks);
        assert [] + Output([], chunks) == Output([], chunks);
      }
    } else {
      var chunks := LongLineShows(s);
    }
  }

  /** Where the first long line starts. */
  lemma {:induction false} FindLong(s: seq<byte>) returns (k: nat)
    requires !ShortLines(s)
    ensures k <= |s| && Rest(s[..k]) == []
    ensures var i := IndexNewline(s[k..]); if i < 0 then |s| - k > MAX_BUFFER + 1 else i > MAX_BUFFER
    decreases |s|
  {
    hide Complete, Rest, IndexNewline;
    IndexNewlineFinds(s);
    var i := IndexNewline(s);
    if i < 0 || i > MAX_BUFFER {
      k := 0;
      assert s[..0] == [] && s[0..] == s;
      NoNewline([]);
    } else {
      var m := FindLong(s[i + 1..]);
      k := i + 1 + m;
      var p := s[..k];
      assert p[i] == NEWLINE && forall j :: 0 <= j < i ==> p[j] == s[j];
      FirstNewline(p, i);
      assert p[i + 1..] == s[i + 1..][..m];
      assert s[i + 1..][m..] == s[k..];
    }
  }

  /** Cutting a long line after the buffer limit makes two lines of it. */
  lemma LongLineShows(s: seq<byte>) returns (chunks: seq<seq<byte>>)
    requires !ShortLines(s)
    ensures Concat(chunks) == s && Output([], chunks) != Output([], [s])
  {
    hide Complete, Rest, IndexNewline, Trimmed, ShortLines, Output, Passed, Kept;
    var k := FindLong(s);
    var head, y := CutLong(s[k..], MAX_BUFFER + 1);
    chunks := [s[..k] + head, y];
    assert s == s[..k] + s[k..] == s[..k] + head + y;
    ConcatTwo(s[..k] + head, y);
    OversizeCut(s[..k], head, y);
    OneWrite(s);
    OneLineMore(s[..k], s[k..], head, y);
  }

  lemma CutLong(x: seq<byte>, n: nat) returns (head: seq<byte>, y: seq<byte>)
    requires var i := IndexNewline(x); if i < 0 then |x| > n else i >= n
    ensures x == head + y && |head| == n && y != [] && forall k :: 0 <= k < |head| ==> head[k] != NEWLINE
  {
    IndexNewlineFinds(x);
    head, y := x[..n], x[n..];
  }

  lemma OneLineMore(pre: seq<byte>, x: seq<byte>, head: seq<byte>, y: seq<byte>)
    requires Rest(pre) == [] && x == head + y && y != [] && forall k :: 0 <= k < |head| ==> head[k] != NEWLINE
    ensures |Complete(pre) + [head] + Lines(y)| == |Lines(pre + x)| + 1
  {
    SameCount(x, head, y);
    SplitConcat(pre, x);
    assert [] + x == x;
  }

  lemma OversizeCut(pre: seq<byte>, head: seq<byte>, y: seq<byte>)
    requires Rest(pre) == [] && |head| > MAX_BUFFER && forall k :: 0 <= k < |head| ==> head[k] != NEWLINE
    ensures Output([], [pre + head, y]) == Complete(pre) + [head] + Lines(y)
  {
    hide Complete, Rest, IndexNewline, Trimmed;
    NoNewline(head);
    SplitConcat(pre, head);
    assert [] + head == head && [] + (pre + head) == pre + head;
    assert Complete(pre) + [] == Complete(pre);
    assert [pre + head, y][1..] == [y];
    OneWrite(y);
  }

  lemma ConcatTwo(a: seq<byte>, b: seq<byte>)
    ensures Concat([a, b]) == a + b
  {
    assert [a, b][1..] == [b] && [b][1..] == [];
    assert Concat([b]) == b + [];
  }

  lemma SameCount(x: seq<byte>, head: seq<byte>, y: seq<byte>)
    requires x == head + y && y != [] && forall k :: 0 <= k < |head| ==> head[k] != NEWLINE
    ensures |Lines(x)| == |Lines(y)|
  {
    hide Complete, Rest, IndexNewline, Trimmed;
    IndexNewlineFinds(y);
    var i := IndexNewline(y);
    if i < 0 {
      NoNewline(x);
      NoNewline(y);
    } else {
      FirstNewline(y, i);
      FirstNewline(x, |head| + i);
      assert x[|head| + i + 1..] == y[i + 1..];
    }
  }
}
