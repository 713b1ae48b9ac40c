/**
 * The Zelda UCode's command buffer as a value: a circular queue of 64 words
 * with a read and a write offset. `Read` and `Write` are what the class
 * methods `Read32` and `Write32` do to that state; the lemmas below state
 * what a sequence of such calls does.
 */
module CommandQueue {
  import opened FixedPoint

  /** `sizeof(m_cmd_buffer) / sizeof(u32)`. */
  const CMD_BUFFER_WORDS: nat := 64

  datatype Queue = Queue(buffer: seq<u32>, readOffset: nat, writeOffset: nat)

  /** The buffer holds 64 words and both offsets index into it. */
  predicate Valid(q: Queue) {
    |q.buffer| == CMD_BUFFER_WORDS && q.readOffset < CMD_BUFFER_WORDS && q.writeOffset < CMD_BUFFER_WORDS
  }

  /** The words the queue holds, oldest first: from the read offset up to (not including) the write offset. */
  function Pending(q: Queue): (r: seq<u32>)
    requires Valid(q)
    ensures |r| < CMD_BUFFER_WORDS
    ensures |r| == 0 <==> q.readOffset == q.writeOffset
  {
    var count := (q.writeOffset - q.readOffset) % CMD_BUFFER_WORDS;
    seq(count, i requires 0 <= i < count => q.buffer[(q.readOffset + i) % CMD_BUFFER_WORDS])
  }

  /** `Write32(val)`: store `val` at the write offset and advance it; there is no overflow check. */
  function Write(q: Queue, val: u32): (q': Queue)
    requires Valid(q)
    ensures Valid(q')
    ensures q'.readOffset == q.readOffset
    ensures q'.writeOffset == (q.writeOffset + 1) % CMD_BUFFER_WORDS
    ensures q'.buffer[q.writeOffset] == val
    ensures forall i :: 0 <= i < CMD_BUFFER_WORDS && i != q.writeOffset ==> q'.buffer[i] == q.buffer[i]
    ensures |Pending(q)| < CMD_BUFFER_WORDS - 1 ==> Pending(q') == Pending(q) + [val]
    ensures |Pending(q)| == CMD_BUFFER_WORDS - 1 ==> Pending(q') == []
  {
    var q' := Queue(q.buffer[q.writeOffset := val], q.readOffset, (q.writeOffset + 1) % CMD_BUFFER_WORDS);
    WriteAppends(q, val, q');
    q'
  }

  lemma WriteAppends(q: Queue, val: u32, q': Queue)
    requires Valid(q)
    requires q' == Queue(q.buffer[q.writeOffset := val], q.readOffset, (q.writeOffset + 1) % CMD_BUFFER_WORDS)
    ensures |Pending(q)| < CMD_BUFFER_WORDS - 1 ==> Pending(q') == Pending(q) + [val]
  {
    var n := |Pending(q)|;
    var r, w := q.readOffset, q.writeOffset;
    assert n == (w - r) % CMD_BUFFER_WORDS;
    if n < CMD_BUFFER_WORDS - 1 {
      CountAfterWrite(r, w);
      assert q'.readOffset == r && q'.writeOffset == (w + 1) % CMD_BUFFER_WORDS;
      assert |Pending(q')| == n + 1;
      forall i | 0 <= i < n + 1
        ensures Pending(q')[i] == (Pending(q) + [val])[i]
      {
        var j := (r + i) % CMD_BUFFER_WORDS;
        assert Pending(q')[i] == q'.buffer[j];
        if i < n {
          SlotBeforeWrite(r, w, i);
          assert Pending(q)[i] == q.buffer[j];
        }
      }
    }
  }

  /** Offset arithmetic of a write below the capacity: one more pending word, the last one at the old write offset. */
  lemma CountAfterWrite(r: nat, w: nat)
    requires r < CMD_BUFFER_WORDS && w < CMD_BUFFER_WORDS
    requires (w - r) % CMD_BUFFER_WORDS < CMD_BUFFER_WORDS - 1
    ensures ((w + 1) % CMD_BUFFER_WORDS - r) % CMD_BUFFER_WORDS == (w - r) % CMD_BUFFER_WORDS + 1
    ensures (r + (w - r) % CMD_BUFFER_WORDS) % CMD_BUFFER_WORDS == w
  {
    if w >= r {
      assert (w - r) % CMD_BUFFER_WORDS == w - r;
      if w + 1 == CMD_BUFFER_WORDS {
        assert (0 - r) % CMD_BUFFER_WORDS == CMD_BUFFER_WORDS - r;
      }
    } else {
      assert (w - r) % CMD_BUFFER_WORDS == w - r + CMD_BUFFER_WORDS;
    }
  }

  /** A pending word never sits at the write offset. */
  lemma SlotBeforeWrite(r: nat, w: nat, i: nat)
    requires r < CMD_BUFFER_WORDS && w < CMD_BUFFER_WORDS
    requires i < (w - r) % CMD_BUFFER_WORDS
    ensures (r + i) % CMD_BUFFER_WORDS != w
  {
    if w >= r {
      assert (w - r) % CMD_BUFFER_WORDS == w - r;
    } else {
      assert (w - r) % CMD_BUFFER_WORDS == w - r + CMD_BUFFER_WORDS;
    }
  }

  /**
   * `Read32()`: on an empty queue, the sentinel 0 and no change (the error log
   * is not modelled); otherwise the word at the read offset, which advances.
   */
  function Read(q: Queue): (res: (u32, Queue))
    requires Valid(q)
    ensures Valid(res.1)
    ensures Pending(q) == [] ==> res.0 == 0 && res.1 == q
    ensures Pending(q) != [] ==> res.0 == Pending(q)[0] && Pending(res.1) == Pending(q)[1..]
    ensures res.1.buffer == q.buffer && res.1.writeOffset == q.writeOffset
  {
    if q.readOffset == q.writeOffset then
      (0, q)
    else
      var q' := q.(readOffset := (q.readOffset + 1) % CMD_BUFFER_WORDS);
      ReadPops(q, q');
      (q.buffer[q.readOffset], q')
  }

  lemma ReadPops(q: Queue, q': Queue)
    requires Valid(q) && q.readOffset != q.writeOffset
    requires q' == q.(readOffset := (q.readOffset + 1) % CMD_BUFFER_WORDS)
    ensures Valid(q') && Pending(q') == Pending(q)[1..]
  {
    var n := |Pending(q)|;
    var r, w := q.readOffset, q.writeOffset;
    assert q'.writeOffset == w && q'.readOffset == (r + 1) % CMD_BUFFER_WORDS;
    assert n == (w - r) % CMD_BUFFER_WORDS;
    CountAfterRead(r, w);
    assert |Pending(q')| == n - 1;
    forall i | 0 <= i < n - 1
      ensures Pending(q')[i] == Pending(q)[1..][i]
    {
      OffsetAdvance(r, i);
      assert Pending(q')[i] == q.buffer[(r + i + 1) % CMD_BUFFER_WORDS];
      assert Pending(q)[i + 1] == q.buffer[(r + (i + 1)) % CMD_BUFFER_WORDS];
    }
  }

  /** Offset arithmetic of a read from a non-empty queue: one word fewer is pending. */
  lemma CountAfterRead(r: nat, w: nat)
    requires r < CMD_BUFFER_WORDS && w < CMD_BUFFER_WORDS && r != w
    ensures (w - (r + 1) % CMD_BUFFER_WORDS) % CMD_BUFFER_WORDS == (w - r) % CMD_BUFFER_WORDS - 1
  {
    if w > r {
      assert (w - r) % CMD_BUFFER_WORDS == w - r;
    } else {
      assert (w - r) % CMD_BUFFER_WORDS == w - r + CMD_BUFFER_WORDS;
      if r + 1 == CMD_BUFFER_WORDS {
        assert (w - 0) % CMD_BUFFER_WORDS == w;
      }
    }
  }

  /** The queue after `Write32` of each word of `words`, in order. */
  function WriteAll(q: Queue, words: seq<u32>): (q': Queue)
    requires Valid(q)
    ensures Valid(q')
    decreases |words|
  {
    if words == [] then q else WriteAll(Write(q, words[0]), words[1..])
  }

  /** The words returned by `k` calls of `Read32`, and the queue afterwards. */
  function ReadN(q: Queue, k: nat): (res: (seq<u32>, Queue))
    requires Valid(q)
    ensures Valid(res.1) && |res.0| == k
    decreases k
  {
    if k == 0 then
      ([], q)
    else
      var (x, q1) := Read(q);
      var (xs, q2) := ReadN(q1, k - 1);
      ([x] + xs, q2)
  }

  /** Writes append to the queue as long as fewer than 64 words would be held. */
  lemma {:induction false} WriteAllAppends(q: Queue, words: seq<u32>)
    requires Valid(q) && |Pending(q)| + |words| < CMD_BUFFER_WORDS
    ensures Pending(WriteAll(q, words)) == Pending(q) + words
    decreases |words|
  {
    if words != [] {
      var q1 := Write(q, words[0]);
      WriteAllAppends(q1, words[1..]);
      assert Pending(q) + words == (Pending(q) + [words[0]]) + words[1..];
    }
  }

  /** `k` reads return the first `k` pending words and leave the rest. */
  lemma {:induction false} ReadNTakesPrefix(q: Queue, k: nat)
    requires Valid(q) && k <= |Pending(q)|
    ensures ReadN(q, k).0 == Pending(q)[..k]
    ensures Pending(ReadN(q, k).1) == Pending(q)[k..]
    decreases k
  {
    if k > 0 {
      var (x, q1) := Read(q);
      ReadNTakesPrefix(q1, k - 1);
      assert Pending(q1) == Pending(q)[1..];
      assert Pending(q)[..k] == [x] + Pending(q1)[..k - 1];
      assert Pending(q)[k..] == Pending(q1)[k - 1..];
    }
  }

  /**
   * FIFO round trip: `k < 64` words written into an empty queue come back in
   * order from `k` reads; the queue is then empty and one more read returns 0.
   */
  lemma FifoRoundTrip(q: Queue, words: seq<u32>)
    requires Valid(q) && Pending(q) == [] && |words| < CMD_BUFFER_WORDS
    ensures ReadN(WriteAll(q, words), |words|).0 == words
    ensures Pending(ReadN(WriteAll(q, words), |words|).1) == []
    ensures Read(ReadN(WriteAll(q, words), |words|).1).0 == 0
  {
    var q1 := WriteAll(q, words);
    WriteAllAppends(q, words);
    assert Pending(q1) == words;
    ReadNTakesPrefix(q1, |words|);
    assert words[..|words|] == words;
  }

  /** Writes leave the read offset alone and advance the write offset modulo 64. */
  lemma {:induction false} WriteAllOffsets(q: Queue, words: seq<u32>)
    requires Valid(q)
    ensures WriteAll(q, words).readOffset == q.readOffset
    ensures WriteAll(q, words).writeOffset == (q.writeOffset + |words|) % CMD_BUFFER_WORDS
    decreases |words|
  {
    if words != [] {
      var q1 := Write(q, words[0]);
      assert WriteAll(q, words) == WriteAll(q1, words[1..]);
      WriteAllOffsets(q1, words[1..]);
      OffsetAdvance(q.writeOffset, |words| - 1);
    }
  }

  /** Advancing an offset by one and then by `m` is advancing it by `m + 1`, modulo 64. */
  lemma OffsetAdvance(w: nat, m: nat)
    requires w < CMD_BUFFER_WORDS
    ensures ((w + 1) % CMD_BUFFER_WORDS + m) % CMD_BUFFER_WORDS == (w + m + 1) % CMD_BUFFER_WORDS
  {
    if w + 1 == CMD_BUFFER_WORDS {
      assert w + m + 1 == CMD_BUFFER_WORDS + m;
    }
  }

  /** With no overflow check, 64 writes into an empty queue make it look empty again. */
  lemma FullLapLooksEmpty(q: Queue, words: seq<u32>)
    requires Valid(q) && Pending(q) == [] && |words| == CMD_BUFFER_WORDS
    ensures Pending(WriteAll(q, words)) == []
  {
    WriteAllOffsets(q, words);
    assert (q.writeOffset + CMD_BUFFER_WORDS) % CMD_BUFFER_WORDS == q.writeOffset;
  }
}
