/**
 * The chunked transfer of upload_url: while fewer than `size` bytes have been
 * sent, read up to 250 KiB from the remote source, stop on an empty read,
 * and upload what was read at the current byte count. The remote source is
 * given as the lengths its successive reads return (past the end of the
 * sequence every read is empty); the plan is the list of uploads the loop
 * performs.
 */
module UploadPlan {
  import opened Libvirt

  /** remote.read(1024*250) */
  const ChunkSize: nat := 1024 * 250

  /** One upload of the loop: `length` bytes at byte offset `offset`. */
  datatype Chunk = Chunk(offset: nat, length: nat)

  /** The length returned by the i-th read; empty past the end of the source. */
  function ReadAt(remote: seq<nat>, i: nat): nat
  {
    if i < |remote| then remote[i] else 0
  }

  /** The uploads the loop still performs from read number `i` once `sent` bytes have been sent. */
  function PlanFrom(size: int, remote: seq<nat>, i: nat, sent: nat): seq<Chunk>
    decreases |remote| - i
  {
    if sent >= size || ReadAt(remote, i) == 0 then []
    else [Chunk(sent, remote[i])] + PlanFrom(size, remote, i + 1, sent + remote[i])
  }

  /** The uploads of the whole loop: from the first read, with nothing sent. */
  function Plan(size: int, remote: seq<nat>): seq<Chunk>
  {
    PlanFrom(size, remote, 0, 0)
  }

  /** The number of bytes the chunks carry. */
  function Total(chunks: seq<Chunk>): nat
  {
    if chunks == [] then 0 else chunks[0].length + Total(chunks[1..])
  }

  /** The uploads the hypervisor records for the chunks, into volume `vol` of pool `pool`. */
  function Log(pool: string, vol: string, chunks: seq<Chunk>): (r: seq<Upload>)
    ensures |r| == |chunks|
    ensures forall k :: 0 <= k < |r| ==> r[k] == Upload(pool, vol, chunks[k].offset, chunks[k].length)
  {
    seq(|chunks|, k requires 0 <= k < |chunks| => Upload(pool, vol, chunks[k].offset, chunks[k].length))
  }

  lemma {:induction false} TotalAppend(a: seq<Chunk>, c: Chunk)
    ensures Total(a + [c]) == Total(a) + c.length
  {
    if a != [] {
      assert (a + [c])[1..] == a[1..] + [c];
      TotalAppend(a[1..], c);
    } else {
      assert a + [c] == [c];
    }
  }

  /**
   * Every upload is exactly one non-empty read, in order: chunk k carries the
   * bytes of read i + k, so each chunk is at most 250 KiB when the reads are.
   */
  lemma {:induction false} PlanChunksAreReads(size: int, remote: seq<nat>, i: nat, sent: nat)
    ensures var p := PlanFrom(size, remote, i, sent);
      && i + |p| <= |remote| + (if i > |remote| then i - |remote| else 0)
      && forall k :: 0 <= k < |p| ==> i + k < |remote| && p[k].length == remote[i + k] && 0 < p[k].length
    decreases |remote| - i
  {
    if !(sent >= size || ReadAt(remote, i) == 0) {
      PlanChunksAreReads(size, remote, i + 1, sent + remote[i]);
    }
  }

  /** With reads of at most 250 KiB, every uploaded chunk holds between 1 byte and 250 KiB. */
  lemma PlanChunkBounds(size: int, remote: seq<nat>)
    requires forall j :: 0 <= j < |remote| ==> remote[j] <= ChunkSize
    ensures forall c :: c in Plan(size, remote) ==> 0 < c.length <= ChunkSize
  {
    PlanChunksAreReads(size, remote, 0, 0);
  }

  /**
   * The chunks go to consecutive offsets: the first at the byte count the
   * loop starts from, each next one where the previous ended.
   */
  lemma {:induction false} PlanConsecutive(size: int, remote: seq<nat>, i: nat, sent: nat)
    ensures var p := PlanFrom(size, remote, i, sent);
      && (|p| > 0 ==> p[0].offset == sent)
      && forall k :: 0 <= k < |p| - 1 ==> p[k + 1].offset == p[k].offset + p[k].length
    decreases |remote| - i
  {
    if !(sent >= size || ReadAt(remote, i) == 0) {
      PlanConsecutive(size, remote, i + 1, sent + remote[i]);
    }
  }

  /** Every chunk starts where the bytes before it, counted from `sent`, end. */
  predicate OffsetsAreSums(p: seq<Chunk>, sent: nat)
  {
    forall k :: 0 <= k < |p| ==> p[k].offset == sent + Total(p[..k])
  }

  /** Each chunk is uploaded at the number of bytes sent before it. */
  lemma {:induction false} PlanOffsets(size: int, remote: seq<nat>, i: nat, sent: nat)
    ensures OffsetsAreSums(PlanFrom(size, remote, i, sent), sent)
    decreases |remote| - i
  {
    var p := PlanFrom(size, remote, i, sent);
    if p != [] {
      var q := PlanFrom(size, remote, i + 1, sent + remote[i]);
      PlanOffsets(size, remote, i + 1, sent + remote[i]);
      assert p == [Chunk(sent, remote[i])] + q;
      forall k | 0 <= k < |p|
        ensures p[k].offset == sent + Total(p[..k])
      {
        if k > 0 {
          assert p[..k][1..] == q[..k - 1];
          assert p[k] == q[k - 1];
          assert Total(p[..k]) == remote[i] + Total(q[..k - 1]);
        } else {
          assert p[..k] == [];
        }
      }
    }
  }

  /** No chunk starts at or beyond `size`: the loop only reads while fewer than `size` bytes are sent. */
  lemma {:induction false} PlanBelowSize(size: int, remote: seq<nat>, i: nat, sent: nat)
    ensures forall c :: c in PlanFrom(size, remote, i, sent) ==> c.offset < size
    decreases |remote| - i
  {
    if !(sent >= size || ReadAt(remote, i) == 0) {
      PlanBelowSize(size, remote, i + 1, sent + remote[i]);
    }
  }

  /** The loop ends only when `size` bytes have been sent or a read comes back empty. */
  lemma {:induction false} PlanStops(size: int, remote: seq<nat>, i: nat, sent: nat)
    ensures var p := PlanFrom(size, remote, i, sent);
      sent + Total(p) >= size || ReadAt(remote, i + |p|) == 0
    decreases |remote| - i
  {
    if !(sent >= size || ReadAt(remote, i) == 0) {
      PlanStops(size, remote, i + 1, sent + remote[i]);
    }
  }

  /** The sum of the read lengths from read `i` on. */
  function Available(remote: seq<nat>, i: nat): nat
    decreases |remote| - i
  {
    if i >= |remote| then 0 else remote[i] + Available(remote, i + 1)
  }

  /**
   * Without an early empty read, the transfer reaches `size`: if no read is
   * empty and the source holds at least `size` bytes, the loop sends at least
   * `size` bytes, and the last chunk starts below `size`.
   */
  lemma {:induction false} PlanReachesSize(size: int, remote: seq<nat>, i: nat, sent: nat)
    requires forall j :: i <= j < |remote| ==> remote[j] > 0
    requires sent + Available(remote, i) >= size
    ensures sent + Total(PlanFrom(size, remote, i, sent)) >= size
    decreases |remote| - i
  {
    if !(sent >= size || ReadAt(remote, i) == 0) {
      PlanReachesSize(size, remote, i + 1, sent + remote[i]);
    }
  }

  /**
   * The progress written after each chunk, (offset + length) / size, strictly
   * increases from one chunk to the next and ends at the total sent.
   */
  lemma PlanProgressIncreases(size: int, remote: seq<nat>)
    ensures var p := Plan(size, remote);
      && (forall j, k :: 0 <= j < k < |p| ==> p[j].offset + p[j].length < p[k].offset + p[k].length)
      && (|p| > 0 ==> p[|p| - 1].offset + p[|p| - 1].length == Total(p))
  {
    PlanEndsIncrease(size, remote);
    PlanLastEnd(size, remote);
  }

  lemma PlanEndsIncrease(size: int, remote: seq<nat>)
    ensures var p := Plan(size, remote);
      forall j, k :: 0 <= j < k < |p| ==> p[j].offset + p[j].length < p[k].offset + p[k].length
  {
    var p := Plan(size, remote);
    PlanConsecutive(size, remote, 0, 0);
    PlanChunksAreReads(size, remote, 0, 0);
    forall j, k | 0 <= j < k < |p|
      ensures p[j].offset + p[j].length < p[k].offset + p[k].length
    {
      EndsIncrease(p, j, k);
    }
  }

  lemma PlanLastEnd(size: int, remote: seq<nat>)
    ensures var p := Plan(size, remote);
      |p| > 0 ==> p[|p| - 1].offset + p[|p| - 1].length == Total(p)
  {
    var p := Plan(size, remote);
    if |p| > 0 {
      var n := |p| - 1;
      PlanOffsets(size, remote, 0, 0);
      assert p[n].offset == Total(p[..n]);
      TotalAppend(p[..n], p[n]);
      assert p[..n] + [p[n]] == p;
    }
  }

  lemma {:induction false} EndsIncrease(p: seq<Chunk>, j: nat, k: nat)
    requires j < k < |p|
    requires forall m :: 0 <= m < |p| - 1 ==> p[m + 1].offset == p[m].offset + p[m].length
    requires forall m :: 0 <= m < |p| ==> 0 < p[m].length
    ensures p[j].offset + p[j].length < p[k].offset + p[k].length
    decreases k - j
  {
    if k > j + 1 {
      EndsIncrease(p, j, k - 1);
    }
  }
}
