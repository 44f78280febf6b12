/** The layout of a multipart upload, defined independently of the arithmetic the uploader
    uses: the file is cut from the front into pieces of CHUNK_SIZE bytes until what is left
    fits in one piece. Part numbers count from 1. */
module ChunkPlan {
  import opened Transfer

  /** One part: its 1-based part number and the byte range [offset, offset + length). */
  datatype Chunk = Chunk(partNumber: nat, offset: nat, length: nat)

  function Min(a: nat, b: nat): nat { if a < b then a else b }

  /** Cuts `remaining` bytes starting at `offset` into parts numbered from `partNumber`. */
  function Cut(partNumber: nat, offset: nat, remaining: nat): seq<Chunk>
    decreases remaining
  {
    if remaining == 0 then []
    else
      var length := Min(remaining, CHUNK_SIZE);
      [Chunk(partNumber, offset, length)] + Cut(partNumber + 1, offset + length, remaining - length)
  }

  /** The parts of a file of `fileSize` bytes. */
  function Plan(fileSize: nat): seq<Chunk>
  {
    Cut(1, 0, fileSize)
  }

  /** The number of parts a file of `fileSize` bytes needs: the least count whose full-size
      parts cover the file, i.e. the ceiling of fileSize / CHUNK_SIZE. */
  function ChunkCount(fileSize: nat): (n: nat)
    ensures n * CHUNK_SIZE >= fileSize
    ensures n > 0 ==> (n - 1) * CHUNK_SIZE < fileSize
  {
    (fileSize + CHUNK_SIZE - 1) / CHUNK_SIZE
  }

  /** Sum of the part lengths. */
  function TotalLength(chunks: seq<Chunk>): nat
  {
    if chunks == [] then 0 else chunks[0].length + TotalLength(chunks[1..])
  }

  // ---------------------------------------------------------------------------
  // The cut, part by part
  // ---------------------------------------------------------------------------

  /** The ceiling is the only count with the two properties of ChunkCount. */
  lemma ChunkCountUnique(fileSize: nat, n: nat)
    requires n * CHUNK_SIZE >= fileSize
    requires n > 0 ==> (n - 1) * CHUNK_SIZE < fileSize
    ensures n == ChunkCount(fileSize)
  {
  }

  lemma {:induction false} CutCount(partNumber: nat, offset: nat, remaining: nat)
    ensures |Cut(partNumber, offset, remaining)| == ChunkCount(remaining)
    decreases remaining
  {
    if remaining == 0 {
      ChunkCountUnique(0, 0);
    } else if remaining <= CHUNK_SIZE {
      assert Cut(partNumber + 1, offset + remaining, 0) == [];
      ChunkCountUnique(remaining, 1);
    } else {
      CutCount(partNumber + 1, offset + CHUNK_SIZE, remaining - CHUNK_SIZE);
      var n := ChunkCount(remaining - CHUNK_SIZE);
      ChunkCountUnique(remaining, n + 1);
    }
  }

  /** Part `i` of a cut is numbered `partNumber + i`, starts `i` full parts past `offset`,
      and is full-size unless it is the last, which holds the rest. */
  lemma {:induction false} CutAt(partNumber: nat, offset: nat, remaining: nat, i: nat)
    requires i < |Cut(partNumber, offset, remaining)|
    ensures var chunks := Cut(partNumber, offset, remaining);
      chunks[i].partNumber == partNumber + i &&
      chunks[i].offset == offset + i * CHUNK_SIZE &&
      chunks[i].length == if i == |chunks| - 1 then remaining - i * CHUNK_SIZE else CHUNK_SIZE
    decreases remaining
  {
    var chunks := Cut(partNumber, offset, remaining);
    var length := Min(remaining, CHUNK_SIZE);
    var tail := Cut(partNumber + 1, offset + length, remaining - length);
    assert chunks == [Chunk(partNumber, offset, length)] + tail;
    if i == 0 {
      if remaining > CHUNK_SIZE {
        CutCount(partNumber + 1, offset + length, remaining - length);
        assert |tail| > 0;
      } else {
        assert tail == [];
      }
    } else {
      CutAt(partNumber + 1, offset + length, remaining - length, i - 1);
      assert chunks[i] == tail[i - 1];
    }
  }

  lemma {:induction false} CutTotal(partNumber: nat, offset: nat, remaining: nat)
    ensures TotalLength(Cut(partNumber, offset, remaining)) == remaining
    decreases remaining
  {
    if remaining > 0 {
      var length := Min(remaining, CHUNK_SIZE);
      var chunks := Cut(partNumber, offset, remaining);
      assert chunks[1..] == Cut(partNumber + 1, offset + length, remaining - length);
      CutTotal(partNumber + 1, offset + length, remaining - length);
    }
  }

  // ---------------------------------------------------------------------------
  // Properties of the plan
  // ---------------------------------------------------------------------------

  /** The plan has ceil(fileSize / CHUNK_SIZE) parts; an exact multiple has no trailing empty part. */
  lemma PlanCount(fileSize: nat)
    ensures |Plan(fileSize)| == ChunkCount(fileSize)
    ensures fileSize % CHUNK_SIZE == 0 ==> |Plan(fileSize)| == fileSize / CHUNK_SIZE
    ensures fileSize % CHUNK_SIZE != 0 ==> |Plan(fileSize)| == fileSize / CHUNK_SIZE + 1
    ensures |Plan(fileSize)| == 0 <==> fileSize == 0
  {
    CutCount(1, 0, fileSize);
    var q := fileSize / CHUNK_SIZE;
    if fileSize % CHUNK_SIZE == 0 {
      ChunkCountUnique(fileSize, q);
    } else {
      ChunkCountUnique(fileSize, q + 1);
    }
  }

  /** Part `i` is numbered `i + 1` and starts at byte `i * CHUNK_SIZE`; every part but the last
      is full-size, and the last holds between 1 and CHUNK_SIZE bytes, ending at the file's end. */
  lemma PlanAt(fileSize: nat, i: nat)
    requires i < |Plan(fileSize)|
    ensures Plan(fileSize)[i].partNumber == i + 1
    ensures Plan(fileSize)[i].offset == i * CHUNK_SIZE
    ensures i < |Plan(fileSize)| - 1 ==> Plan(fileSize)[i].length == CHUNK_SIZE
    ensures i == |Plan(fileSize)| - 1 ==>
      0 < Plan(fileSize)[i].length <= CHUNK_SIZE &&
      Plan(fileSize)[i].offset + Plan(fileSize)[i].length == fileSize
  {
    CutAt(1, 0, fileSize, i);
    PlanCount(fileSize);
  }

  /** The part lengths add up to the file size. */
  lemma PlanCoversFile(fileSize: nat)
    ensures TotalLength(Plan(fileSize)) == fileSize
  {
    CutTotal(1, 0, fileSize);
  }

  /** The byte ranges start at 0, each begins where the previous one ends, and the last ends
      at the end of the file: they are contiguous and do not overlap. */
  lemma PlanContiguous(fileSize: nat)
    ensures var plan := Plan(fileSize);
      (|plan| > 0 ==> plan[0].offset == 0 && plan[|plan| - 1].offset + plan[|plan| - 1].length == fileSize) &&
      forall i :: 0 <= i < |plan| - 1 ==> plan[i].offset + plan[i].length == plan[i + 1].offset
  {
    var plan := Plan(fileSize);
    if |plan| > 0 {
      PlanAt(fileSize, 0);
      PlanAt(fileSize, |plan| - 1);
    }
    forall i | 0 <= i < |plan| - 1
      ensures plan[i].offset + plan[i].length == plan[i + 1].offset
    {
      PlanAt(fileSize, i);
      PlanAt(fileSize, i + 1);
    }
  }

  /** Part numbers run 1, 2, ..., |plan| in strictly ascending order with no gaps or repeats. */
  lemma PlanPartNumbersAscending(fileSize: nat)
    ensures var plan := Plan(fileSize);
      (forall i :: 0 <= i < |plan| ==> plan[i].partNumber == i + 1) &&
      (forall i, j :: 0 <= i < j < |plan| ==> plan[i].partNumber < plan[j].partNumber)
  {
    var plan := Plan(fileSize);
    forall i | 0 <= i < |plan| ensures plan[i].partNumber == i + 1 {
      PlanAt(fileSize, i);
    }
  }

  /** Every part lies inside the file, and with at most MAX_CHUNKS parts of a file whose size
      fits in 64 bits neither the byte offsets (u64) nor the part numbers (i32) can overflow. */
  lemma PlanFitsMachineWidths(fileSize: nat)
    requires fileSize < 0x1_0000_0000_0000_0000
    requires ChunkCount(fileSize) <= MAX_CHUNKS
    ensures forall c :: c in Plan(fileSize) ==>
      c.offset + c.length <= fileSize < 0x1_0000_0000_0000_0000 &&
      1 <= c.partNumber <= MAX_CHUNKS < 0x8000_0000
  {
    var plan := Plan(fileSize);
    PlanCount(fileSize);
    forall c | c in plan
      ensures c.offset + c.length <= fileSize && 1 <= c.partNumber <= MAX_CHUNKS
    {
      var i :| 0 <= i < |plan| && plan[i] == c;
      PlanAt(fileSize, i);
      PlanAt(fileSize, |plan| - 1);
    }
  }

  // ---------------------------------------------------------------------------
  // Worked cases
  // ---------------------------------------------------------------------------

  /** 12 MiB is two full parts and a 2 MiB remainder, numbered 1, 2, 3. */
  lemma PlanOfTwelveMiB()
    ensures Plan(12582912) == [Chunk(1, 0, 5242880), Chunk(2, 5242880, 5242880), Chunk(3, 10485760, 2097152)]
  {
    assert Cut(3, 10485760, 2097152) == [Chunk(3, 10485760, 2097152)] by {
      assert Cut(4, 12582912, 0) == [];
    }
    assert Cut(2, 5242880, 7340032) == [Chunk(2, 5242880, 5242880)] + Cut(3, 10485760, 2097152);
  }

  /** Exactly 5 MiB is one full part, with no empty part after it. */
  lemma PlanOfFiveMiB()
    ensures Plan(5242880) == [Chunk(1, 0, 5242880)]
  {
  }
}
