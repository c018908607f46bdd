/**
 * The two ring buffers: LogBuffer (internal/logger/log_buffer.go) and TimeSeriesBuffer
 * (internal/metrics/timeseries.go), each against the unbounded sequence it keeps the end of.
 */
module RingBuffers {
  import opened Bytes
  import opened Sequences

  /** The last `n` elements of a sequence, or all of it. */
  function Last<T>(s: seq<T>, n: nat): seq<T> {
    if n < |s| then s[|s| - n..] else s
  }

  lemma LastOfLast<T>(s: seq<T>, n: nat, m: nat)
    requires m <= n
    ensures Last(Last(s, n), m) == Last(s, m)
  {
  }

  lemma LastSnoc<T>(s: seq<T>, x: T, n: nat)
    requires n > 0
    ensures Last(s + [x], n) == Last(s, n - 1) + [x]
  {
  }

  const MAX_STORED_MESSAGE_BYTES := 8192

  datatype LogEntry = LogEntry(process: string, level: string, message: seq<byte>)

  /** A UTF-8 continuation byte. */
  predicate Continues(b: byte) {
    0x80 <= b < 0xC0
  }

  /** The longest cut of at most `n` bytes that does not end inside a rune. */
  ghost predicate RuneCut(s: seq<byte>, n: nat, cut: nat) {
    && cut <= n < |s|
    && (cut > 0 ==> !Continues(s[cut]))
    && forall k :: cut < k <= n ==> Continues(s[k])
  }

  method TruncateAtRuneBoundary(s: seq<byte>, n: nat) returns (r: seq<byte>)
    ensures |s| <= n ==> r == s
    ensures |s| > n ==> r <= s && RuneCut(s, n, |r|)
  {
    if |s| <= n {
      return s;
    }
    var cut: nat := n;
    while cut > 0 && Continues(s[cut])
      invariant cut <= n && forall k :: cut < k <= n ==> Continues(s[k])
    {
      cut := cut - 1;
    }
    return s[..cut];
  }

  /** What is kept of an entry: the message, if it is too long, cut at a rune boundary and marked. */
  ghost predicate StoredAs(entry: LogEntry, stored: LogEntry, mark: seq<byte>) {
    && stored.process == entry.process && stored.level == entry.level
    && if |entry.message| <= MAX_STORED_MESSAGE_BYTES then stored.message == entry.message
       else exists cut: nat :: RuneCut(entry.message, MAX_STORED_MESSAGE_BYTES, cut)
                          && stored.message == entry.message[..cut] + mark
  }

  /** What a ring holds, oldest first, when `index` is the next slot to be written. */
  ghost function Unwound<T>(a: seq<T>, index: nat, full: bool): seq<T>
    requires index < |a|
  {
    if full then a[index..] + a[..index] else a[..index]
  }

  lemma UnwoundStore<T>(a: seq<T>, index: nat, full: bool, x: T)
    requires index < |a|
    ensures var wraps := index + 1 == |a|;
            Unwound(a[index := x], if wraps then 0 else index + 1, full || wraps)
            == Last(Unwound(a, index, full), |a| - 1) + [x]
  {
    var b := a[index := x];
    assert b[..index] == a[..index] && b[index + 1..] == a[index + 1..];
    assert b[..index + 1] == a[..index] + [x];
    if full {
      assert Last(a[index..] + a[..index], |a| - 1) == a[index + 1..] + a[..index];
    }
  }

  class LogBuffer {
    const entries: array<LogEntry>
    const size: nat
    var index: nat
    var full: bool
    ghost var history: seq<LogEntry>  // everything stored since the last Clear

    ghost predicate Valid()
      reads this, entries
    {
      && entries.Length == size && 0 < size && index < size
      && Contents() == Last(history, size)
      && (if full then |history| >= size else |history| == index)
    }

    ghost function Contents(): seq<LogEntry>
      requires entries.Length == size && index < size
      reads this, entries
    {
      Unwound(entries[..], index, full)
    }

    constructor (capacity: int)
      ensures Valid() && fresh(entries) && history == []
      ensures size == if capacity <= 0 then 1000 else capacity
    {
      var n := if capacity <= 0 then 1000 else capacity;
      entries := new LogEntry[n](_ => LogEntry("", "", []));
      size, index, full, history := n, 0, false, [];
    }

    /** `mark` is the note that says how many bytes were cut off. */
    method Add(entry: LogEntry, mark: seq<byte>)
      requires Valid()
      modifies this, entries
      ensures Valid() && |history| == |old(history)| + 1 && old(history) <= history
      ensures StoredAs(entry, history[|old(history)|], mark)
    {
      var stored := entry;
      if |stored.message| > MAX_STORED_MESSAGE_BYTES {
        var cut := TruncateAtRuneBoundary(stored.message, MAX_STORED_MESSAGE_BYTES);
        stored := stored.(message := cut + mark);
        assert entry.message[..|cut|] == cut;
      }
      Store(stored);
    }

    method Store(stored: LogEntry)
      requires Valid()
      modifies this, entries
      ensures Valid() && history == old(history) + [stored]
    {
      UnwoundStore(entries[..], index, full, stored);
      LastSnoc(history, stored, size);
      LastOfLast(history, size, size - 1);
      ghost var before := entries[..];
      hide Unwound, Last;
      entries[index] := stored;
      assert entries[..] == before[index := stored];
      index := index + 1;
      if index >= size {
        index := 0;
        full := true;
      }
      history := history + [stored];
    }

    method GetAll() returns (result: seq<LogEntry>)
      requires Valid()
      ensures result == Last(history, size)
    {
      if !full {
        result := entries[..index];
      } else {
        result := entries[index..] + entries[..index];
      }
    }

    method GetRecent(n: int) returns (result: seq<LogEntry>)
      requires Valid()
      ensures result == Last(Last(history, size), if n < 0 then 0 else n)
    {
      var count := if full then size else index;
      var m := if n < 0 then 0 else n;
      if m > count {
        m := count;
      }
      if !full {
        var start := index - m;
        result := entries[start..index];
      } else if m <= index {
        result := entries[index - m..index];
      } else {
        var fromEnd := m - index;
        result := entries[size - fromEnd..] + entries[..index];
      }
      assert |Contents()| == count;
      assert result == Last(Contents(), m);
    }

    method Clear()
      requires Valid()
      modifies this
      ensures Valid() && history == []
    {
      index, full, history := 0, false, [];
    }
  }

  // ----- resource samples

  datatype Sample = Sample(timestamp: int, cpu: real, memory: nat)

  /** The samples not older than `since`. */
  function Since(s: seq<Sample>, since: int): seq<Sample>
    decreases |s|
  {
    if s == [] then []
    else
      var front, last := Since(s[..|s| - 1], since), s[|s| - 1];
      if last.timestamp >= since then front + [last] else front
  }

  lemma {:induction false} SinceConcat(a: seq<Sample>, b: seq<Sample>, since: int)
    ensures Since(a + b, since) == Since(a, since) + Since(b, since)
    decreases |b|
  {
    if b == [] {
      assert a + b == a;
    } else {
      assert (a + b)[..|a + b| - 1] == a + b[..|b| - 1];
      SinceConcat(a, b[..|b| - 1], since);
    }
  }

  /** The slot `x` places into a ring of `n`. */
  lemma SlotOf(x: nat, n: nat)
    requires x < n + n
    ensures x % n == if x < n then x else x - n
  {
    if x >= n {
      assert (x - n) % n == x - n;
      assert x == (x - n) + n;
    }
  }

  /** The `size` elements before `head` in a ring, oldest first. */
  ghost function Ring(a: seq<Sample>, head: nat, size: nat): seq<Sample>
    requires head < |a| && size <= |a|
  {
    seq(size, i requires 0 <= i < size =>
          if head + i >= size then a[head - size + i] else a[head - size + i + |a|])
  }

  lemma RingAdd(a: seq<Sample>, head: nat, size: nat, x: Sample)
    requires head < |a| && size <= |a|
    ensures var next := if head + 1 == |a| then 0 else head + 1;
            var more := if size < |a| then size + 1 else size;
            Ring(a[head := x], next, more) == Last(Ring(a, head, size), |a| - 1) + [x]
  {
    var next := if head + 1 == |a| then 0 else head + 1;
    var more := if size < |a| then size + 1 else size;
    var left, right := Ring(a[head := x], next, more), Last(Ring(a, head, size), |a| - 1) + [x];
    assert |left| == |right| == more;
    forall i | 0 <= i < more ensures left[i] == right[i] {
    }
  }

  class TimeSeriesBuffer {
    const samples: array<Sample>
    const maxSamples: nat
    var head: nat
    var size: nat
    ghost var history: seq<Sample>  // everything added since the last Clear

    ghost predicate Shaped()
      reads this
    {
      0 < maxSamples == samples.Length && head < maxSamples && size <= maxSamples
    }

    ghost function Retained(): seq<Sample>
      requires Shaped()
      reads this, samples
    {
      Ring(samples[..], head, size)
    }

    ghost predicate Valid()
      reads this, samples
    {
      && Shaped()
      && Retained() == Last(history, maxSamples)
      && (size < maxSamples ==> size == |history|)
    }

    constructor (capacity: int)
      ensures Valid() && fresh(samples) && history == []
      ensures maxSamples == if capacity < 1 then 720 else capacity
    {
      var n := if capacity < 1 then 720 else capacity;
      samples := new Sample[n](_ => Sample(0, 0.0, 0));
      maxSamples, head, size, history := n, 0, 0, [];
    }

    method Add(sample: Sample)
      requires Valid()
      modifies this, samples
      ensures Valid() && history == old(history) + [sample]
    {
      RingAdd(samples[..], head, size, sample);
      LastSnoc(history, sample, maxSamples);
      LastOfLast(history, maxSamples, maxSamples - 1);
      SlotOf(head + 1, maxSamples);
      ghost var before := samples[..];
      hide Ring, Last;
      samples[head] := sample;
      assert samples[..] == before[head := sample];
      head := (head + 1) % maxSamples;
      if size < maxSamples {
        size := size + 1;
      }
      history := history + [sample];
    }

    /** The sample `i` places before the newest. */
    method Back(i: nat) returns (sample: Sample)
      requires Shaped() && i < size
      ensures sample == Retained()[size - 1 - i]
    {
      SlotOf(head + maxSamples - 1 - i, maxSamples);
      var idx := (head - 1 - i + maxSamples) % maxSamples;
      sample := samples[idx];
    }

    /** The last `limit` retained samples not older than `since`, oldest first. */
    method GetRange(since: int, limit: int) returns (result: seq<Sample>)
      requires Valid()
      ensures result == Last(Since(Last(history, maxSamples), since), if 0 < limit <= size then limit else size)
    {
      if size == 0 {
        return [];
      }
      var count: nat := if limit <= 0 || limit > size then size else limit;
      result := [];
      ghost var all := Retained();
      assert |all| == size && all[size..] == [];
      assert result == Newest(all, size, since);
      hide Ring, Newest, Since, Reverse, Last;
      var i := 0;
      while i < size && |result| < count
        invariant i <= size && |result| <= count
        invariant result == Newest(all, size - i, since)
      {
        var sample := Back(i);
        OneFurtherBack(all, size - i, since);
        if sample.timestamp >= since {
          result := result + [sample];
        }
        i := i + 1;
      }
      EnoughCollected(all, size - i, since, count);
      result := ReverseInPlace(result);
    }

    method Latest() returns (sample: Sample, ok: bool)
      requires Valid()
      ensures ok <==> history != []
      ensures ok ==> sample == history[|history| - 1]
    {
      if size == 0 {
        return Sample(0, 0.0, 0), false;
      }
      sample := Back(0);
      ok := true;
    }

    method Clear()
      requires Valid()
      modifies this
      ensures Valid() && history == []
    {
      head, size, history := 0, 0, [];
    }
  }

  /** The samples from position `k` on that are not older than `since`, newest first. */
  ghost function Newest(all: seq<Sample>, k: nat, since: int): seq<Sample>
    requires k <= |all|
  {
    Reverse(Since(all[k..], since))
  }

  lemma OneFurtherBack(all: seq<Sample>, k: nat, since: int)
    requires 0 < k <= |all|
    ensures Newest(all, k - 1, since) ==
            Newest(all, k, since) + if all[k - 1].timestamp >= since then [all[k - 1]] else []
  {
    assert all[k - 1..] == [all[k - 1]] + all[k..];
    SinceConcat([all[k - 1]], all[k..], since);
    assert [all[k - 1]][..0] == [];
    assert Since([all[k - 1]], since) == if all[k - 1].timestamp >= since then [all[k - 1]] else [];
  }

  /** The walk back stops at the start, or once it has as many as asked for. */
  lemma EnoughCollected(all: seq<Sample>, k: nat, since: int, count: nat)
    requires k <= |all| && |Newest(all, k, since)| <= count
    requires k == 0 || |Newest(all, k, since)| == count
    ensures Reverse(Newest(all, k, since)) == Last(Since(all, since), count)
  {
    ReverseTwice(Since(all[k..], since));
    assert all == all[..k] + all[k..];
    SinceConcat(all[..k], all[k..], since);
    if k == 0 {
      assert all[k..] == all;
    }
  }

  /** The two-pointer swap at the end of GetRange. */
  method ReverseInPlace(s: seq<Sample>) returns (r: seq<Sample>)
    ensures r == Reverse(s)
  {
    r := s;
    var i, j := 0, |s| - 1;
    while i < j
      invariant |r| == |s| && 0 <= i && i + j == |s| - 1 && i <= j + 2
      invariant forall k :: 0 <= k < i ==> r[k] == s[|s| - 1 - k] && r[|s| - 1 - k] == s[k]
      invariant forall k :: i <= k <= j ==> r[k] == s[k]
    {
      r := r[i := r[j]][j := r[i]];
      i, j := i + 1, j - 1;
    }
    forall k | 0 <= k < |s| ensures r[k] == s[|s| - 1 - k] {
      if k >= i && k > j {
        assert r[|s| - 1 - (|s| - 1 - k)] == s[|s| - 1 - k];
      }
    }
  }
}
