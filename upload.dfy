/** The multipart upload: initiate, upload every part in order, complete, against an
    abstract object store that records each request it receives and answers from a script. */
module Upload {
  import opened Wrappers
  import opened Transfer
  import opened ChunkPlan

  /** What completion is told about one part: the store's ETag for it and its part number. */
  datatype CompletedPart = CompletedPart(eTag: string, partNumber: nat)

  /** A request as the store receives it; a part's body is its byte range in the file. */
  datatype Request =
    | CreateMultipartUploadRequest(bucket: string, key: string)
    | UploadPartRequest(bucket: string, key: string, uploadId: string,
                        partNumber: nat, offset: nat, length: nat)
    | CompleteMultipartUploadRequest(bucket: string, key: string, uploadId: string,
                                     parts: seq<CompletedPart>)

  /** The store's answer to initiation: refused, or accepted with an upload id that may be absent. */
  datatype InitiateReply = InitiateRejected | Initiated(uploadId: Option<string>)

  /** The store's answer to one part: refused, or accepted with an ETag that may be absent. */
  datatype PartReply = PartRejected | PartAccepted(eTag: Option<string>)

  /** Every point where the program unwraps, expects or panics. */
  datatype UploadError =
    | InitiateFailed        // the create request was refused
    | MissingUploadId       // the store accepted but sent no upload id
    | SourceUnreadable      // the file's metadata could not be read
    | EmptyFile             // the file has no bytes
    | TooManyChunks         // more than MAX_CHUNKS parts would be needed
    | PartUploadFailed(partNumber: nat)
    | CompletionFailed

  /** The remote store: a log of the requests it has received and scripted replies. */
  class Store {
    const initiateReply: InitiateReply
    const partReplies: seq<PartReply>
    const completeAccepted: bool
    var trace: seq<Request>
    var partsServed: nat

    constructor (initiateReply: InitiateReply, partReplies: seq<PartReply>, completeAccepted: bool)
      ensures this.initiateReply == initiateReply && this.partReplies == partReplies
      ensures this.completeAccepted == completeAccepted
      ensures trace == [] && partsServed == 0
    {
      this.initiateReply := initiateReply;
      this.partReplies := partReplies;
      this.completeAccepted := completeAccepted;
      trace := [];
      partsServed := 0;
    }

    /** The reply to the n-th part request this store receives; past its script it refuses. */
    function PartReplyAt(n: nat): PartReply
    {
      if n < |partReplies| then partReplies[n] else PartRejected
    }

    /** The store accepts the `count` part requests numbered from `first` on. */
    predicate AcceptsParts(first: nat, count: nat)
    {
      forall n :: first <= n < first + count ==> PartReplyAt(n).PartAccepted?
    }

    method CreateMultipartUpload(bucket: string, key: string) returns (reply: InitiateReply)
      modifies this
      ensures trace == old(trace) + [CreateMultipartUploadRequest(bucket, key)]
      ensures partsServed == old(partsServed)
      ensures reply == initiateReply
    {
      trace := trace + [CreateMultipartUploadRequest(bucket, key)];
      reply := initiateReply;
    }

    method UploadPart(bucket: string, key: string, uploadId: string,
                      partNumber: nat, offset: nat, length: nat) returns (reply: PartReply)
      modifies this
      ensures trace == old(trace) + [UploadPartRequest(bucket, key, uploadId, partNumber, offset, length)]
      ensures partsServed == old(partsServed) + 1
      ensures reply == PartReplyAt(old(partsServed))
    {
      trace := trace + [UploadPartRequest(bucket, key, uploadId, partNumber, offset, length)];
      reply := PartReplyAt(partsServed);
      partsServed := partsServed + 1;
    }

    method CompleteMultipartUpload(bucket: string, key: string, uploadId: string,
                                   parts: seq<CompletedPart>) returns (accepted: bool)
      modifies this
      ensures trace == old(trace) + [CompleteMultipartUploadRequest(bucket, key, uploadId, parts)]
      ensures partsServed == old(partsServed)
      ensures accepted == completeAccepted
    {
      trace := trace + [CompleteMultipartUploadRequest(bucket, key, uploadId, parts)];
      accepted := completeAccepted;
    }
  }

  /** The ETag recorded for an accepted part; a missing one becomes the empty string. */
  function ETagOf(reply: PartReply): (eTag: string)
    requires reply.PartAccepted?
    ensures reply.eTag.Some? ==> eTag == reply.eTag.value
    ensures reply.eTag.None? ==> eTag == ""
  {
    reply.eTag.GetOr("")
  }

  /** The completed parts collected from `count` accepted part requests numbered from `first`:
      the i-th carries the ETag of the i-th reply and part number i + 1. */
  function CollectedParts(store: Store, first: nat, count: nat): seq<CompletedPart>
    requires store.AcceptsParts(first, count)
  {
    seq(count, i requires 0 <= i < count => CompletedPart(ETagOf(store.PartReplyAt(first + i)), i + 1))
  }

  /** The part requests for `chunks`, in order, all for one destination and one upload id. */
  function PartRequests(dest: RemotePath, uploadId: string, chunks: seq<Chunk>): (rs: seq<Request>)
  {
    if chunks == [] then []
    else
      var c := chunks[|chunks| - 1];
      PartRequests(dest, uploadId, chunks[..|chunks| - 1])
        + [UploadPartRequest(dest.bucketName, dest.key, uploadId, c.partNumber, c.offset, c.length)]
  }

  /** Taking one more chunk appends its upload request. */
  lemma PartRequestsSnoc(dest: RemotePath, uploadId: string, chunks: seq<Chunk>, c: Chunk)
    ensures PartRequests(dest, uploadId, chunks + [c]) ==
      PartRequests(dest, uploadId, chunks) + [UploadPartRequest(dest.bucketName, dest.key, uploadId, c.partNumber, c.offset, c.length)]
  {
    assert (chunks + [c])[..|chunks|] == chunks;
  }

  /** The part requests are all uploads to `dest` under `uploadId`, one per chunk. */
  lemma {:induction false} PartRequestsShape(dest: RemotePath, uploadId: string, chunks: seq<Chunk>)
    ensures var rs := PartRequests(dest, uploadId, chunks);
      |rs| == |chunks| &&
      forall k :: 0 <= k < |rs| ==>
        rs[k].UploadPartRequest? && rs[k].bucket == dest.bucketName &&
        rs[k].key == dest.key && rs[k].uploadId == uploadId
    decreases |chunks|
  {
    if chunks != [] {
      PartRequestsShape(dest, uploadId, chunks[..|chunks| - 1]);
    }
  }

  /** Request `i` uploads chunk `i`, under the given destination and upload id. */
  lemma {:induction false} PartRequestsAt(dest: RemotePath, uploadId: string, chunks: seq<Chunk>, i: nat)
    requires i < |chunks|
    ensures |PartRequests(dest, uploadId, chunks)| == |chunks|
    ensures PartRequests(dest, uploadId, chunks)[i] ==
      UploadPartRequest(dest.bucketName, dest.key, uploadId, chunks[i].partNumber, chunks[i].offset, chunks[i].length)
    decreases |chunks|
  {
    var init := chunks[..|chunks| - 1];
    if |init| > 0 {
      PartRequestsAt(dest, uploadId, init, if i < |init| then i else 0);
    } else {
      assert PartRequests(dest, uploadId, init) == [];
    }
  }

  /** The uploader's own arithmetic for the layout: one more than the whole number of full
      chunks, less one when the size is an exact multiple, in which case the last chunk is full.
      It agrees with the plan: the count is the plan's length and the size is the plan's last part. */
  method ChunkLayout(fileSize: nat) returns (chunkCount: nat, sizeOfLastChunk: nat)
    ensures chunkCount == |Plan(fileSize)| == ChunkCount(fileSize)
    ensures fileSize > 0 ==> sizeOfLastChunk == Plan(fileSize)[chunkCount - 1].length
    ensures fileSize == 0 ==> chunkCount == 0 && sizeOfLastChunk == CHUNK_SIZE
  {
    chunkCount := fileSize / CHUNK_SIZE + 1;
    sizeOfLastChunk := fileSize % CHUNK_SIZE;
    if sizeOfLastChunk == 0 {
      sizeOfLastChunk := CHUNK_SIZE;
      chunkCount := chunkCount - 1;
    }
    PlanCount(fileSize);
    if fileSize > 0 {
      PlanAt(fileSize, chunkCount - 1);
    }
  }

  /** Reads the file's size, checks it, and uploads its parts one after another under
      `uploadId`, collecting one completed part per chunk. `metadata` is the result of the
      file-size lookup (None when the file cannot be examined). */
  method UploadFileChunks(store: Store, metadata: Option<nat>, dest: RemotePath, uploadId: string)
    returns (r: Result<seq<CompletedPart>, UploadError>)
    modifies store
    ensures metadata.None? ==> r == Failure(SourceUnreadable)
    ensures metadata == Some(0) ==> r == Failure(EmptyFile)
    ensures metadata.Some? && metadata.value > 0 && ChunkCount(metadata.value) > MAX_CHUNKS ==>
      r == Failure(TooManyChunks)
    ensures r.Failure? && !r.error.PartUploadFailed? ==>
      store.trace == old(store.trace) && store.partsServed == old(store.partsServed)
    ensures r.Failure? && metadata.Some? && metadata.value > 0 && ChunkCount(metadata.value) <= MAX_CHUNKS ==>
      r.error.PartUploadFailed?
    ensures r.Success? <==>
      metadata.Some? && metadata.value > 0 && ChunkCount(metadata.value) <= MAX_CHUNKS &&
      store.AcceptsParts(old(store.partsServed), ChunkCount(metadata.value))
    ensures r.Success? ==>
      var plan := Plan(metadata.value);
      |r.value| == |plan| &&
      store.AcceptsParts(old(store.partsServed), |plan|) &&
      (forall i :: 0 <= i < |plan| ==>
        r.value[i].partNumber == i + 1 &&
        r.value[i] == CompletedPart(ETagOf(store.PartReplyAt(old(store.partsServed) + i)), plan[i].partNumber)) &&
      store.trace == old(store.trace) + PartRequests(dest, uploadId, plan) &&
      store.partsServed == old(store.partsServed) + |plan|
    ensures var n := |old(store.trace)|;
      |store.trace| >= n && store.trace[..n] == old(store.trace) &&
      forall k :: n <= k < |store.trace| ==>
        store.trace[k].UploadPartRequest? && store.trace[k].bucket == dest.bucketName &&
        store.trace[k].key == dest.key && store.trace[k].uploadId == uploadId
    ensures r.Failure? && r.error.PartUploadFailed? ==>
      var plan := Plan(metadata.value);
      var k := r.error.partNumber - 1;
      metadata.Some? && 0 <= k < |plan| <= MAX_CHUNKS &&
      store.PartReplyAt(old(store.partsServed) + k) == PartRejected &&
      store.AcceptsParts(old(store.partsServed), k) &&
      store.trace == old(store.trace) + PartRequests(dest, uploadId, plan[..k + 1]) &&
      store.partsServed == old(store.partsServed) + k + 1
  {
    if metadata.None? {
      return Failure(SourceUnreadable);
    }
    var fileSize := metadata.value;

    var chunkCount, sizeOfLastChunk := ChunkLayout(fileSize);

    if fileSize == 0 {
      return Failure(EmptyFile);
    }
    if chunkCount > MAX_CHUNKS {
      return Failure(TooManyChunks);
    }

    r := UploadPlannedChunks(store, fileSize, chunkCount, sizeOfLastChunk, dest, uploadId);
  }

  /** The part loop of `UploadFileChunks` for a size that passed its checks: one part request
      per planned chunk, stopping at the first refused part. */
  method UploadPlannedChunks(store: Store, fileSize: nat, chunkCount: nat, sizeOfLastChunk: nat,
                             dest: RemotePath, uploadId: string)
    returns (r: Result<seq<CompletedPart>, UploadError>)
    requires fileSize > 0 && chunkCount == ChunkCount(fileSize) <= MAX_CHUNKS
    requires chunkCount == |Plan(fileSize)| && sizeOfLastChunk == Plan(fileSize)[chunkCount - 1].length
    modifies store
    ensures r.Failure? ==> r.error.PartUploadFailed?
    ensures r.Success? <==> store.AcceptsParts(old(store.partsServed), chunkCount)
    ensures r.Success? ==>
      var plan := Plan(fileSize);
      |r.value| == |plan| &&
      (forall i :: 0 <= i < |plan| ==>
        r.value[i].partNumber == i + 1 &&
        r.value[i] == CompletedPart(ETagOf(store.PartReplyAt(old(store.partsServed) + i)), plan[i].partNumber)) &&
      store.trace == old(store.trace) + PartRequests(dest, uploadId, plan) &&
      store.partsServed == old(store.partsServed) + |plan|
    ensures var n := |old(store.trace)|;
      |store.trace| >= n && store.trace[..n] == old(store.trace) &&
      forall k :: n <= k < |store.trace| ==>
        store.trace[k].UploadPartRequest? && store.trace[k].bucket == dest.bucketName &&
        store.trace[k].key == dest.key && store.trace[k].uploadId == uploadId
    ensures r.Failure? ==>
      var plan := Plan(fileSize);
      var k := r.error.partNumber - 1;
      0 <= k < |plan| &&
      store.PartReplyAt(old(store.partsServed) + k) == PartRejected &&
      store.AcceptsParts(old(store.partsServed), k) &&
      store.trace == old(store.trace) + PartRequests(dest, uploadId, plan[..k + 1]) &&
      store.partsServed == old(store.partsServed) + k + 1
  {
    ghost var plan := Plan(fileSize);
    ghost var base := store.partsServed;
    var uploadParts: seq<CompletedPart> := [];

    for chunkIndex := 0 to chunkCount
      invariant |uploadParts| == chunkIndex
      invariant store.AcceptsParts(base, chunkIndex)
      invariant forall j :: 0 <= j < chunkIndex ==>
        uploadParts[j] == CompletedPart(ETagOf(store.PartReplyAt(base + j)), j + 1)
      invariant store.trace == old(store.trace) + PartRequests(dest, uploadId, plan[..chunkIndex])
      invariant store.partsServed == base + chunkIndex
    {
      var thisChunk := if chunkCount - 1 == chunkIndex then sizeOfLastChunk else CHUNK_SIZE;
      var offset := chunkIndex * CHUNK_SIZE;
      // Chunk indices start at 0, part numbers at 1.
      var partNumber := chunkIndex + 1;
      assert plan[chunkIndex] == Chunk(partNumber, offset, thisChunk) by {
        PlanAt(fileSize, chunkIndex);
      }
      assert PartRequests(dest, uploadId, plan[..chunkIndex + 1]) ==
        PartRequests(dest, uploadId, plan[..chunkIndex]) +
        [UploadPartRequest(dest.bucketName, dest.key, uploadId, partNumber, offset, thisChunk)] by {
        assert plan[..chunkIndex + 1] == plan[..chunkIndex] + [plan[chunkIndex]];
        PartRequestsSnoc(dest, uploadId, plan[..chunkIndex], plan[chunkIndex]);
      }

      var reply := store.UploadPart(dest.bucketName, dest.key, uploadId, partNumber, offset, thisChunk);
      assert store.trace == old(store.trace) + PartRequests(dest, uploadId, plan[..chunkIndex + 1]);
      if reply.PartRejected? {
        assert store.PartReplyAt(base + chunkIndex) == PartRejected;
        PartRequestsShape(dest, uploadId, plan[..chunkIndex + 1]);
        return Failure(PartUploadFailed(partNumber));
      }
      uploadParts := uploadParts + [CompletedPart(ETagOf(reply), partNumber)];
      assert reply == store.PartReplyAt(base + chunkIndex);
    }
    PlanPartNumbersAscending(fileSize);
    assert plan[..chunkCount] == plan;
    PartRequestsShape(dest, uploadId, plan);
    return Success(uploadParts);
  }

  /** Asks the store to start a multipart upload at `dest`; a refusal is fatal. */
  method InitiateUpload(store: Store, dest: RemotePath) returns (r: Result<Option<string>, UploadError>)
    modifies store
    ensures store.trace == old(store.trace) + [CreateMultipartUploadRequest(dest.bucketName, dest.key)]
    ensures store.partsServed == old(store.partsServed)
    ensures store.initiateReply.InitiateRejected? ==> r == Failure(InitiateFailed)
    ensures store.initiateReply.Initiated? ==> r == Success(store.initiateReply.uploadId)
  {
    var reply := store.CreateMultipartUpload(dest.bucketName, dest.key);
    if reply.InitiateRejected? {
      return Failure(InitiateFailed);
    }
    return Success(reply.uploadId);
  }

  /** Hands the collected parts to the store, under the same upload id; a refusal is fatal. */
  method FinishUpload(store: Store, dest: RemotePath, uploadParts: seq<CompletedPart>, uploadId: string)
    returns (r: Outcome<UploadError>)
    modifies store
    ensures store.trace == old(store.trace) +
      [CompleteMultipartUploadRequest(dest.bucketName, dest.key, uploadId, uploadParts)]
    ensures store.partsServed == old(store.partsServed)
    ensures r == if store.completeAccepted then Pass else Fail(CompletionFailed)
  {
    var accepted := store.CompleteMultipartUpload(dest.bucketName, dest.key, uploadId, uploadParts);
    if !accepted {
      return Fail(CompletionFailed);
    }
    return Pass;
  }

  /** The whole upload of a local file to the remote path `to`: initiate, upload the parts,
      complete. `metadata` is the file-size lookup of the local file. Nothing is aborted or
      retried: a failure after initiation leaves the upload open at the store. */
  method UploadFile(store: Store, to: string, metadata: Option<nat>) returns (r: Outcome<UploadError>)
    modifies store
    // Every later request goes to the same destination under the one upload id the store issued.
    ensures var dest := SplitRemotePath(to);
      forall k :: |old(store.trace)| < k < |store.trace| ==>
        !store.trace[k].CreateMultipartUploadRequest? &&
        store.initiateReply == Initiated(Some(store.trace[k].uploadId)) &&
        store.trace[k].bucket == dest.bucketName && store.trace[k].key == dest.key
    // Success exactly when every step is accepted.
    ensures r.Pass? <==>
      store.initiateReply.Initiated? && store.initiateReply.uploadId.Some? &&
      metadata.Some? && metadata.value > 0 && ChunkCount(metadata.value) <= MAX_CHUNKS &&
      store.AcceptsParts(old(store.partsServed), ChunkCount(metadata.value)) &&
      store.completeAccepted
    // Initiation problems, and an unusable file (examined only after initiation), end the
    // upload with the create request as the only request sent.
    ensures var dest := SplitRemotePath(to);
      var onlyCreate := store.trace == old(store.trace) + [CreateMultipartUploadRequest(dest.bucketName, dest.key)] &&
                        store.partsServed == old(store.partsServed);
      (store.initiateReply.InitiateRejected? ==> r == Fail(InitiateFailed) && onlyCreate) &&
      (store.initiateReply == Initiated(None) ==> r == Fail(MissingUploadId) && onlyCreate) &&
      (store.initiateReply.Initiated? && store.initiateReply.uploadId.Some? ==>
        (metadata.None? ==> r == Fail(SourceUnreadable) && onlyCreate) &&
        (metadata == Some(0) ==> r == Fail(EmptyFile) && onlyCreate) &&
        (metadata.Some? && metadata.value > 0 && ChunkCount(metadata.value) > MAX_CHUNKS ==>
          r == Fail(TooManyChunks) && onlyCreate))
    // A refused part ends the upload at that part: the parts before it were sent and accepted,
    // and no completion is requested.
    ensures r.Fail? && r.error.PartUploadFailed? ==>
      var dest := SplitRemotePath(to);
      var uploadId := store.initiateReply.uploadId.value;
      var plan := Plan(metadata.value);
      var k := r.error.partNumber - 1;
      store.initiateReply.Initiated? && store.initiateReply.uploadId.Some? && metadata.Some? &&
      0 <= k < |plan| <= MAX_CHUNKS &&
      store.AcceptsParts(old(store.partsServed), k) &&
      store.PartReplyAt(old(store.partsServed) + k) == PartRejected &&
      store.trace == old(store.trace) + [CreateMultipartUploadRequest(dest.bucketName, dest.key)]
        + PartRequests(dest, uploadId, plan[..k + 1]) &&
      store.partsServed == old(store.partsServed) + k + 1
    // A refused part always ends the upload with `PartUploadFailed`.
    ensures (store.initiateReply.Initiated? && store.initiateReply.uploadId.Some? &&
             metadata.Some? && metadata.value > 0 && ChunkCount(metadata.value) <= MAX_CHUNKS &&
             !store.AcceptsParts(old(store.partsServed), ChunkCount(metadata.value))) ==>
      r.Fail? && r.error.PartUploadFailed?
    // The first request is always the create for the destination.
    ensures var dest := SplitRemotePath(to);
      |store.trace| > |old(store.trace)| &&
      store.trace[|old(store.trace)|] == CreateMultipartUploadRequest(dest.bucketName, dest.key)
    // With every part accepted, completion is requested with the parts in order, and its answer
    // decides the outcome.
    ensures (store.initiateReply.Initiated? && store.initiateReply.uploadId.Some? &&
             metadata.Some? && metadata.value > 0 && ChunkCount(metadata.value) <= MAX_CHUNKS &&
             store.AcceptsParts(old(store.partsServed), ChunkCount(metadata.value))) ==>
      var dest := SplitRemotePath(to);
      var uploadId := store.initiateReply.uploadId.value;
      var plan := Plan(metadata.value);
      |plan| == ChunkCount(metadata.value) &&
      store.trace == old(store.trace) + [CreateMultipartUploadRequest(dest.bucketName, dest.key)]
        + PartRequests(dest, uploadId, plan)
        + [CompleteMultipartUploadRequest(dest.bucketName, dest.key, uploadId,
                                          CollectedParts(store, old(store.partsServed), |plan|))] &&
      store.partsServed == old(store.partsServed) + |plan| &&
      r == if store.completeAccepted then Pass else Fail(CompletionFailed)
  {
    var remoteDestination := SplitRemotePath(to);
    var request := InitiateUpload(store, remoteDestination);
    if request.Failure? {
      return Fail(request.error);
    }
    if request.value.None? {
      return Fail(MissingUploadId);
    }
    var uploadId := request.value.value;
    ghost var afterInitiate := store.trace;
    ghost var base := store.partsServed;
    var uploadParts := UploadFileChunks(store, metadata, remoteDestination, uploadId);
    if uploadParts.Failure? {
      return Fail(uploadParts.error);
    }
    ghost var plan := Plan(metadata.value);
    PlanCount(metadata.value);
    assert uploadParts.value == CollectedParts(store, base, |plan|);
    r := FinishUpload(store, remoteDestination, uploadParts.value, uploadId);
    PartRequestsShape(remoteDestination, uploadId, plan);
  }
}
