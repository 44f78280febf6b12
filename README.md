# Multipart upload to S3: a Dafny model

This project models the core of a small command-line tool that copies a local file into an
S3 bucket with a multipart upload. It covers four things:

- the part layout of an upload: how many 5 MiB parts a file needs, how long the last part is,
  which byte range each part covers, and its 1-based part number;
- the upload loop: one part request per chunk, and one completed part `{ETag, part number}`
  collected for each;
- the upload driver: initiate, then the parts, then completion, with one upload id threaded
  through every request;
- the two string rules that decide what is uploaded and where: the transfer mode (a path is
  remote exactly when it starts with `s3://`), and the split of a remote path into bucket
  and key (the last `/`-separated segment is the bucket).

The S3 client is modelled by an abstract `Store` object. It records every request it receives
in `trace`, and it answers from a script: one reply for initiation, one reply per part request
in the order the requests arrive, and accept or refuse for completion. Each `unwrap`, `expect`
and `panic!` of the program is a named error (`UploadError`, `ModeError`) rather than process
termination.

Files:
- `wrappers.dfy`: `Option`, `Result` and `Outcome`.
- `transfer.dfy` (module `Transfer`): the constants `CHUNK_SIZE` and `MAX_CHUNKS`,
  `IsRemotePath`, `GetTransferMode` and `SplitRemotePath`, with the string functions they use.
  Those are Rust's `str::replace`, `str::split` and `join`.
- `chunk_plan.dfy` (module `ChunkPlan`): a reference definition of the part layout. It cuts the
  file from the front into `CHUNK_SIZE` pieces. It uses none of the uploader's division and
  remainder arithmetic, and the layout lemmas are proved about it.
- `upload.dfy` (module `Upload`): the store, the uploader's own chunk arithmetic
  (`ChunkLayout`), the part upload (`UploadFileChunks`, whose loop is `UploadPlannedChunks`), `InitiateUpload`,
  `FinishUpload` and the driver `UploadFile`. These are proved against the reference layout.

## Model

| member | source | states |
|---|---|---|
| `Transfer.IsRemotePath` | src/main.rs:35-37 | a path is remote iff its first five characters are exactly `s3://` |
| `Transfer.GetTransferMode` | src/main.rs:39-49 | Upload iff from is local and to is remote; Download iff from is remote and to is local; RemoteCopy iff both are remote; an error iff both are local. These four cases partition every pair of paths |
| `Transfer.TransferModeExamples` | src/main.rs:39-49 | `/local/a` to `s3://b/k` is Upload; the reverse is Download; `s3://b1/k1` to `s3://b2/k2` is RemoteCopy; `/a` to `/b` is refused |
| `Transfer.RemoveAll` | src/main.rs:65 | removing the scheme never lengthens the path |
| `Transfer.RemoveAllWithoutOccurrence` | src/main.rs:65 | a path in which `s3://` never occurs is left unchanged |
| `Transfer.RemoveAllWithoutFirstChar` | src/main.rs:65 | a path with no character that could start the pattern is left unchanged |
| `Transfer.RemoveAllAfterPlain` | src/main.rs:65 | when no occurrence of the pattern starts inside the text before a given occurrence, that text is kept, the occurrence is removed, and removal continues after it |
| `Transfer.RemoveAllAfterPlainChars` | src/main.rs:65 | the same, for text none of whose characters could start the pattern |
| `Transfer.RemoveAllPastPartialMatchExample` | src/main.rs:65 | `s3://assets/s3://x` becomes `assets/x`: an `s` that does not begin `s3://` is kept, and the later occurrence is still removed |
| `Transfer.StripLeadingScheme` | src/main.rs:65 | for any rest, removing the scheme from `s3://` + rest gives the same as removing it from rest alone |
| `Transfer.StripSchemeFromPlain` | src/main.rs:65 | `s3://` + rest becomes rest when rest has no `s` |
| `Transfer.RemovalCanFormTheScheme` | src/main.rs:65 | removal is one left-to-right pass: `ss3://3://` becomes `s3://`, so the result may still contain the scheme |
| `Transfer.Split` | src/main.rs:66 | splitting on `/` always yields at least one piece; no piece contains `/`; there is exactly one piece iff the string has no `/`. This is why the `pop().unwrap()` cannot fail |
| `Transfer.JoinSplit` | src/main.rs:66-68 | joining the pieces of a split with `/` gives back the string |
| `Transfer.Join` | src/main.rs:69 | for at least one piece, the result's length is the pieces' total length plus one separator between each pair of neighbours. Its contents are fixed by `JoinSnoc`, `JoinSplit` and `SplitJoin` |
| `Transfer.JoinSnoc` | src/main.rs:69 | for a non-empty list, joining with one more piece at the end gives the previous join, a `/` and that piece |
| `Transfer.SplitJoin` | src/main.rs:66-68 | splitting the join of `/`-free pieces gives back the pieces |
| `Transfer.SplitRemotePath` | src/main.rs:64-71 | the bucket never contains `/`. When the scheme-stripped path contains `/`, key + `/` + bucket equals that path. Otherwise the key is empty and the bucket is the whole stripped path |
| `Transfer.BucketIsLastSegment` | src/main.rs:66-68 | the bucket is a suffix of the stripped path. Either it is the whole path, or the character before it is `/` and the text before that is the key |
| `Transfer.SplitRemotePathNestedExample` | src/main.rs:64-71 | `s3://mybucket/a/b/c` gives bucket `c` and key `mybucket/a/b` |
| `Transfer.SplitRemotePathBareSchemeExample` | src/main.rs:66-68 | `s3://` gives bucket `""` and key `""` |
| `Transfer.SplitRemotePathSingleSegmentExample` | src/main.rs:66-69 | `s3://bucket` gives bucket `bucket` and an empty key |
| `Transfer.SplitRemotePathInnerSchemeExample` | src/main.rs:65-69 | `s3://a/s3://b` gives bucket `b` and key `a`: the scheme is removed inside the path too |
| `ChunkPlan.ChunkCount` | src/upload.rs:45-50 | the part count is the least n with n * CHUNK_SIZE >= file size, i.e. ceil(fileSize / CHUNK_SIZE) |
| `ChunkPlan.PlanCount` | src/upload.rs:45-50 | the plan has ChunkCount(fileSize) parts: fileSize / CHUNK_SIZE for an exact multiple, otherwise one more. It has no parts iff the file is empty |
| `ChunkPlan.PlanAt` | src/upload.rs:61-75 | part i has part number i + 1 and offset i * CHUNK_SIZE. Every part but the last has length CHUNK_SIZE. The last has a length in (0, CHUNK_SIZE] and ends exactly at the file size |
| `ChunkPlan.PlanCoversFile` | src/upload.rs:45-66 | the part lengths add up to the file size |
| `ChunkPlan.PlanContiguous` | src/upload.rs:62-70 | the first range starts at 0, each range starts where the previous one ends, and the last ends at the file size |
| `ChunkPlan.PlanPartNumbersAscending` | src/upload.rs:74-75 | part numbers are exactly 1..n, in strictly ascending order |
| `ChunkPlan.PlanFitsMachineWidths` | src/upload.rs:67-75 | for a 64-bit file size within MAX_CHUNKS parts, every range lies inside the file and every part number is in 1..10000. So the u64 offsets and the i32 part numbers cannot overflow |
| `ChunkPlan.PlanOfTwelveMiB` | src/upload.rs:45-50 | 12 MiB gives parts of 5 MiB, 5 MiB and 2 MiB, numbered 1, 2, 3, at offsets 0, 5 MiB and 10 MiB |
| `ChunkPlan.PlanOfFiveMiB` | src/upload.rs:45-50 | exactly 5 MiB gives one full part, with no trailing empty part |
| `ChunkPlan.CutCount` | src/upload.rs:45-50 | a cut of n bytes has ceil(n / CHUNK_SIZE) parts |
| `ChunkPlan.CutAt` | src/upload.rs:61-75 | part i of a cut has the next part number, starts i full parts in, and is full-size unless it is the last |
| `ChunkPlan.CutTotal` | src/upload.rs:61-66 | a cut's lengths add up to the bytes it was given |
| `Upload.ChunkLayout` | src/upload.rs:45-50 | the uploader's arithmetic (quotient plus one, less one on an exact multiple, last size set to CHUNK_SIZE) gives the plan's part count and its last part's length. For an empty file it gives count 0 |
| `Upload.UploadFileChunks` | src/upload.rs:33-94 | A failed size lookup, an empty file or more than MAX_CHUNKS parts fail with no request sent. Otherwise it sends one part request per planned chunk, with the chunk's part number and byte range, under the given upload id and destination. It stops at the first refused part and reports its part number. It succeeds iff every part is accepted. The returned list has one entry per chunk, with part numbers 1..n ascending, each carrying that part's ETag verbatim, or `""` when the ETag is missing |
| `Upload.UploadPlannedChunks` | src/upload.rs:59-93 | for a non-empty file within MAX_CHUNKS parts, it sends chunk i's request with part number i + 1 and chunk i's byte range. It fails only at a refused part, reporting that part's number, with the accepted parts before it and that part as the only requests sent. It succeeds iff the store accepts every part, returning one completed part per chunk with its ETag and part number |
| `Upload.ETagOf` | src/upload.rs:88 | an accepted part's ETag is taken verbatim, and a missing ETag becomes the empty string |
| `Upload.Store.CreateMultipartUpload` | src/upload.rs:24-30 | appends one create request for the given bucket and key, and answers with the scripted initiation reply |
| `Upload.Store.UploadPart` | src/upload.rs:77-85 | appends one part request with the given bucket, key, upload id, part number and byte range; answers with the reply scripted for the n-th part request, refusing past the script |
| `Upload.Store.CompleteMultipartUpload` | src/upload.rs:102-114 | appends one complete request with the given parts and upload id, and answers with the scripted completion reply |
| `Upload.PartRequestsSnoc` | src/upload.rs:61-85 | one more chunk appends exactly its part request |
| `Upload.PartRequestsShape` | src/upload.rs:77-84 | every part request goes to the same bucket, key and upload id, one request per chunk |
| `Upload.PartRequestsAt` | src/upload.rs:67-84 | request i carries chunk i's part number, offset and length |
| `Upload.InitiateUpload` | src/upload.rs:20-31 | sends one create request for the destination's bucket and key. A refusal is `InitiateFailed`; otherwise it returns the upload id as the store gave it, which may be absent |
| `Upload.FinishUpload` | src/upload.rs:96-115 | sends one complete request with the given parts and upload id; a refusal is `CompletionFailed` |
| `Upload.UploadFile` | src/upload.rs:12-18 | The first request is always the create for `SplitRemotePath(to)`. Every later request goes to that bucket and key under the one upload id the store issued, and none is another create. It succeeds iff initiation, every part and completion are accepted and the file is non-empty and within MAX_CHUNKS parts. A refused or id-less initiation, an unreadable file, an empty file or too many parts each end it with its own error, after the create request alone. A refused part k ends it with `PartUploadFailed(k)`: the requests are the create and parts 1..k, and no completion is sent. With every part accepted, the requests are the create, the planned parts in order and one completion carrying the collected parts (numbered 1..n, each with its ETag); the outcome is then success or `CompletionFailed` as the store answers completion |

## Left out

- Network I/O: the AWS SDK client calls are replaced by the abstract `Store`; no S3 semantics are modelled (part size minimums, ETag checks on completion, persistence).
- File I/O: `tokio::fs::metadata` is the `metadata: Option<nat>` parameter (`None` when the lookup fails). A part body is its byte range; no bytes are read.
- `UploadFileChunks`: does not model a failure to open a part's byte stream (`ByteStream::read_from(...).unwrap()`, src/upload.rs:67-73). That failure depends on the file system, which is not modelled.
- `async`/`await` and the tokio runtime: the program is strictly sequential, and so is the model.
- `main` (src/main.rs:16-33): argument count check, environment configuration and dispatch are command-line plumbing.
- `download` and `remote_copy` (src/main.rs:51-57) are `todo!()` and have no behaviour to model.
- Integer widths: sizes, offsets and part numbers are unbounded naturals. `PlanFitsMachineWidths` shows that the program's u64 and i32 values cannot overflow on any accepted input.
- Abort and retry: the program has neither, so the model has neither. An upload that fails after initiation is left open at the store: `UploadFile` proves that no completion is sent after a refused part.

## Behaviour of the code a reader might not expect

The model does what the code does in each case below.

- An empty file, too many chunks and an unreadable file are not rejected before any remote call. In the code, `upload` calls `initiate_upload` first (src/upload.rs:14-16), and the file is examined only inside `upload_file_chunks` (src/upload.rs:40-57). `Upload.UploadFile` states that each of these errors happens after exactly one request, the create request.
- The bucket may be empty: `s3://` and paths ending in `/` give an empty bucket (`SplitRemotePathBareSchemeExample`).
- The scheme is not only stripped as a prefix: the code removes every occurrence of `s3://` anywhere in the path (`SplitRemotePathInnerSchemeExample`, `RemovalCanFormTheScheme`).
- Completion does not sort the parts by part number. The code sends them in loop order, and the model proves that this order is already ascending (`UploadFileChunks`, `PlanPartNumbersAscending`).
