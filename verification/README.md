# swifty: protocols and loops, modelled and proved

swifty is a serverless platform: a gateway that runs functions in pods, an S3-compatible object store on Mongo, and
small proxies and queues between them. This project models the parts of it that carry invariants of their own and
proves what they keep, with Dafny 4.11. `dafny verify dfyconfig.toml` checks everything.

## What is modelled

**The object store under interleaving** (`Ledger`, `S3Db`, `S3Store`, `S3Inv`, `S3Steps`, `S3Safety`, `S3Theorems`,
`S3Buckets`, `S3Runs`, `S3Races`, `S3Ops`). Every Mongo call is one atomic step on maps: match the query, then update;
a call fails only when its query matches nothing. Puts, copies, upload completions, deletes, version GC, bucket
creation and bucket deletion run as operations with a program counter between their calls, goto rollbacks included.
`S3Inv` is the invariant, `S3Steps` shows each step keeps it, `S3Safety` lifts it to every reachable state, and
`S3Theorems` reads off what it means for the counters, the quota, rovers and GC. `S3Buckets` says when making and
deleting a bucket works. `S3Runs` is about stretches of a run: an object is uncharged once, a GC run from its query to
its return, and bucket names that are used twice. `S3Races` runs two interleavings in which the store does not do what
it is for. `S3Ops` is the sequential code, methods with their rollback paths on one store object.

**Listing** (`Listing`, `ListingPages`). `s3ListBucket` as the one-pass loop it is, proved equal to "resume, remove
duplicates, classify, cut"; then what a client collects that follows the tokens to the end.

**Multipart uploads** (`Upload`, `UploadSafety`, `UploadOrder`, `UploadTheorems`, `UploadOps`). The lock/ref protocol
on one upload record, with part uploads, finishers, aborters and deletes of the finished object interleaved; when the
order of the parts fixes what is read; and the same code as methods run one at a time.

**Object data** (`DataPath`, `PartStore`, `HttpRange`, `RangeRead`, `Download`). The chunk reader and writer over a
body that comes in arbitrary reads, copying and deleting of chunks, the `Range` header, the two nested download loops,
and the download quota.

**The gate** (`Pods`, `PodsSafety`, `PodsTheorems`, `PodsTight`, `PodOps`, `Scaler`, `ScalerTheorems`, `ScalerOps`,
`RateLimit`, `Limiters`, `Stats`). The pod store with its `dead` marker and the replica scaler, each interleaved and
as code run alone; token buckets and the chain of three of them; delta flushing of statistics and the rows built from
archived records.

**Framing** (`Proxy`, `Queue`). Reassembly of mongo frames from a TCP stream, and messages over a packet socket.

Where operations interleave, the model is a step relation on values, because the interleaving of single database
calls, lock operations and field accesses is what the properties are about. Where code runs alone, it is a method with
the source's loop, on a class where the source updates fields.

## Where the code does not do what one would expect

Each of these is proved twice: that it happens, by a run or an input, and exactly when.

- A committed put can lose its object without any delete: the GC threshold is the bucket's rover as re-read by
  `commitObj`, and other puts into the bucket may have raised it (`S3Races.PutCanLoseItsObject`). A collection takes
  the current version of its key, whichever put made that, exactly when a creation younger than it was charged in the
  bucket before the commit that started the collection (`S3Theorems.GcTakesCurrentExactly`, by
  `S3Theorems.GcThreshold` and `S3Theorems.GcSparesCurrent`).
- A put that is refused for a short body has lost the versions before it (`S3Ops.ShortPutLosesOld`): the body is found
  short after the commit has started the collection. A refused put changes the objects if and only if it was
  committed, which takes no more than a body that `AddPart` reports stored and a bucket that accepts it, and the key
  had a version (`S3Ops.Store.PutObject`).
- A delete that looked its bucket up before the bucket was deleted and made anew under the same name leaves the object
  behind, Inactive and still counted. It happens in `S3Races.StaleHandleLeavesObject`; a step does it exactly when its
  handle names another bucket record (`S3Theorems.StrandsExactly`), which takes a name used twice
  (`S3Runs.NamesUsedOnceStrandNone`). Counters equal the Active objects exactly when it has not happened
  (`S3Theorems.QuietBucket`, `S3Runs.QuietBucketExact`).
- Listing after a key that does not exist lists nothing (`ListingPages.NothingAfterMissing`); what comes is right if
  and only if the key is listed or nothing is greater (`ListingPages.StartsAfter`).
- An upload with an empty part, left by a body that broke off (`UploadTheorems.EmptyPartHappens`), cannot be finished,
  only aborted: a finisher gives up exactly when there is one (`UploadTheorems.EmptyPartBlocks`,
  `UploadTheorems.ResumParts`).
- A part number uploaded twice is in the object twice, and may be read in either order
  (`UploadOrder.ReuploadReadsTwoWays`); every read yields the same bytes exactly when any two parts of one number hold
  bytes that can be swapped (`UploadOrder.OneBodyExactly`, `UploadTheorems.FinishedObject`), as when no number is used
  twice (`UploadOrder.DistinctNumbersSwap`).
- A body that ends early is padded with zeros to a full buffer (`PartStore.PaddedByte`); the part holds exactly the
  declared bytes if and only if the body is whole or ends at a full buffer (`PartStore.StoredExactly`). A body whose
  connection breaks is reported stored, without data, exactly if it is over the inline limit
  (`PartStore.ChunkDb.AddPart`). A PUT notices both (`PartStore.ChunkDb.PutData`), the upload of a part does not; a
  finished object yields as many bytes as its size exactly when every part holds what it declared
  (`UploadTheorems.FinishedObject`).
- `Range` with the largest int64 as its end wraps around, and no other (`HttpRange.ClosedRange`): the reply carries
  nothing and announces something else, a negative length exactly when it begins at 0, else the size or what is left
  of the int64 range (`HttpRange.LargestEnd`, `RangeRead.GetObject`). The suffix form of RFC 7233, section 2.1, is
  refused for every number (`HttpRange.SuffixRange`).
- The announced length is charged to the download quota, the negative one too. Then more is served than the quota
  allows (`Download.NegativeMisses`); the counters cover what was served exactly when no negative length was admitted
  (`Download.CountsServedExactly`), and without one, within 64 bits, the quota holds (`Download.QuotaHolds`).
- A download may be refused though it fits the quota (`Download.FirstOneRefused`): it is admitted if and only if twice
  its size does (`Download.AdmittedExactly`).
- After `scalerStop` the condition variable may stay without a scaler (`ScalerTheorems.DeafHappens`): exactly when a
  scaler finds the goal 0 at one of its two tests for it (`ScalerTheorems.DeafExactly`). No later goal starts a scaler
  then (`ScalerTheorems.DeafForGood`).
- A failed deployment call counts as a success (`ScalerTheorems.FailedCallLosesDemand`). It does harm exactly when it
  asked for more replicas than there were (`ScalerTheorems.OverstatesExactly`), and lets the scaler sleep on unmet
  demand exactly when the goal is between the two (`ScalerTheorems.FailedCallExactly`).
- A scaler started for one replica where a stop has left five (`ScalerTheorems.StartedForOne`) leaves them: left alone
  it ends with one replica if its goal was two or more, else with what there was or the goal
  (`ScalerTheorems.StartedOutcome`).
- A failed write of statistics has cleared the dirty flag (`Stats.FailedWriteForgets`). With nothing in flight or
  flagged the database is up to date exactly when no write with something to add has failed since the last that worked
  (`Stats.QuietIsFlushed`, `Stats.FailedWriteExactly`); then nothing happens before the next update
  (`Stats.WaitsForAnUpdate`).
- Four zero bytes block a mongo connection (`Proxy.FourZeroBytesBlock`): with a pipeline that refuses nothing it is
  blocked exactly when the bytes in front announce length zero (`Proxy.ZeroFrameBlocks`).
- A token bucket may admit one more than has come in, as its clock moves by whole units
  (`RateLimit.OneMoreByRounding`): an empty one admits, at one moment, what has come in as far as it holds that much,
  and no more exactly when what is left on its clock is less than a token, as it is whenever the rate divides the base
  (`RateLimit.EarnedArrive`, `RateLimit.NoMoreArriveExactly`).
- A queue message loses a trailing zero byte (`Queue.ZeroIsLost`): it arrives as sent if and only if it does not end
  in one or its length is a multiple of the packet size (`Queue.RoundTrip`).

## Model

| member | source | states |
|---|---|---|
| S3Safety.StepKeepsInv | src/s3/object.go:92-336 | every database step of every operation in flight keeps the invariant of records, ledgers, owners and counters |
| S3Safety.ReachableInv | src/s3/acct.go:15-102 | the invariant holds in every state of every interleaved run from the empty store |
| S3Theorems.ChargedRecords | src/s3/acct.go:41-102 | what a bucket has charged is exactly its Active objects, those an operation in flight still has to settle, and those a stale delete left behind |
| S3Theorems.BucketCounters | src/s3/acct.go:27-102 | in every reachable state cnt-objects and cnt-bytes are the number and total size of the charged objects, and ref is the number of creations between charge and commit |
| S3Theorems.NamespaceCounters | src/s3/acct.go:41-102 | namespace counters equal the sums over its buckets plus what operations between their two charge or uncharge steps account for, so they never fall below the sums |
| S3Theorems.QuietBucket | src/s3/acct.go:78-102 | with nothing in flight a bucket counts its Active objects exactly, if and only if no stale delete left an Inactive one behind |
| S3Theorems.QuietNamespace | src/s3/stats.go:15-24 | with nothing in flight namespace counters are the sums over its buckets |
| S3Theorems.ActiveInActiveBucket | src/s3/bucket.go:280-315 | no interleaving of creations with bucket deletion leaves an Active object in a bucket that is not Active |
| S3Theorems.QuotaHolds | src/s3/acct.go:15-59 | with a constant limit the admitted objects, and so the Active ones, never exceed CntBytes together |
| S3Theorems.RoversDistinct | src/s3/object.go:92-105 | two Active objects of one bucket never have the same rover |
| S3Theorems.GrantIsNew | src/s3/acct.go:58-62 | the rover a creation is charged with is above every rover given out in its bucket before |
| S3Theorems.CurrentUnique | src/s3/object.go:80-90 | FindCurObject is unambiguous: a cookie has one current version |
| S3Theorems.GcThreshold | src/s3/object.go:92-105 | the threshold handed to GC is the youngest rover granted in the bucket by then, at least the new object's; it is above the rover of any Active object of the bucket exactly when a creation was charged later than that object |
| S3Theorems.GcSparesCurrent | src/s3/gc.go:32-50 | a GC run takes the current version exactly when its rover is below the threshold; never when the threshold is the rover of an Active version of the key |
| S3Theorems.GcTakesCurrentExactly | src/s3/object.go:92-105 | from the commit that starts it to its query: a collection is given the current version of its key exactly when a creation charged before that commit is younger than it |
| S3Theorems.UnaccountedOnce | src/s3/object.go:314-336 | the step that uncharges an object finds it charged, takes its size off its bucket, and leaves no other operation in flight that could do it again |
| S3Runs.UnchargedOnce | src/s3/acct.go:78-102 | in no run is an object on its bucket's counters again after it was taken off them, until a new record with its id is inserted |
| S3Runs.GcRetiresItsList | src/s3/gc.go:32-50 | when an interleaved GC operation has returned every version on its list has been seen not Active since its query |
| S3Runs.GcTakesOnlyItsList | src/s3/gc.go:32-50 | no step of an interleaved GC operation deactivates a version that is not on its list |
| S3Theorems.EveryBucketTidy | src/s3/object.go:80-105 | in every reachable state a bucket's Active versions are those of its name and have rovers up to the bucket's |
| S3Theorems.PendingNeverFails | src/s3/acct.go:15-102 | while a creation has not handed its object over it is refused exactly by a limit above zero that the bytes charged to its namespace and its size exceed, and by a bucket that is not Active; its later steps and its rollback find what they look for, and the rollback gives every charge back |
| S3Theorems.DropNeverFails | src/s3/object.go:314-336 | a drop takes an object exactly when it is Active, and its last two steps never fail: the namespace is uncharged and the record goes |
| S3Buckets.BegunExactly | src/s3/bucket.go:233-264 | a bucket record is inserted exactly when no record has its name |
| S3Buckets.BegunBucketsWork | src/s3/bucket.go:264-315 | whatever is interleaved, an inserted bucket becomes Active and a marked one goes |
| S3Buckets.DeletedExactly | src/s3/bucket.go:280-300 | a deletion gets past its first step exactly when the bucket is Active and no object is charged to it |
| S3Theorems.LateFailureIsHarmless | src/s3/object.go:141-182 | commitObj fails only when the object is already deleted and uncharged, and the rollback behind it changes no counter |
| S3Theorems.StrandsExactly | src/s3/object.go:284-336 | a step leaves an object behind exactly when it uncharges with a handle of another bucket record, which is then gone |
| S3Runs.NamesUsedOnceStrandNone | src/s3/bucket.go:280-315 | as long as no bucket name has been used by two bucket records no object is left behind |
| S3Runs.QuietBucketExact | src/s3/acct.go:78-102 | and with nothing in flight every bucket then counts its Active objects exactly |
| S3Races.PutCanLoseItsObject | src/s3/object.go:92-105 | a run of two puts without any delete after which the first key has no current version |
| S3Races.StaleHandleLeavesObject | src/s3/bucket.go:280-315 | a run after which nothing is in flight, no object is Active and the new bucket counts one |
| S3Ops.Store.AcctObj | src/s3/acct.go:15-76 | refused exactly by a bucket that is not Active and by a limit above zero that the bytes charged and the size exceed together, and then the counters are as they were; else bucket and namespace are raised together and the new rover is returned |
| S3Ops.Store.UnacctObj | src/s3/acct.go:78-102 | the bucket is lowered first; the namespace only if that worked |
| S3Ops.Store.CommitObj | src/s3/acct.go:31-39 | ref goes down by one and the bucket's rover of that moment is what GC gets |
| S3Ops.Store.AddObject | src/s3/object.go:241-282 | a put of a new id into an Active bucket with its data stored is refused exactly by a limit above zero that the bytes charged and the size exceed; else it stores one Active object under its own rover and charges it once; a refused one leaves no trace but a rover number |
| S3Ops.FitsExactly | src/s3/acct.go:15-25 | of 100 bytes with 60 charged a put of 40 is accepted and one of 41 refused; under a limit of zero a put is accepted |
| S3Ops.Store.DropObject | src/s3/object.go:314-336 | a drop removes the record and both charges, or says so and leaves an Inactive record |
| S3Ops.Store.GcOldVersions | src/s3/gc.go:32-50 | exactly the outdated versions go, and both counters are lower by their number and total size |
| S3Ops.Store.PutAndCollect | src/s3/object.go:80-105 | run alone, a put and the GC it starts leave one Active version of the key, the new one, charged once, and no other record is touched; a refused put leaves no trace but a rover number |
| S3Ops.Store.PutObject | src/s3/handlers.go:529-570 | in whichever order the GC and the test for a short body run: a kept put leaves only the new version of the key; one refused after its commit leaves none, with the counters of what is left; one refused before changes nothing |
| S3Ops.ShortPutLosesOld | src/s3/handlers.go:552-565 | a put of eight bytes of which three come is refused, and the version that was there is gone |
| S3Ops.TakesOldVersions | src/s3/gc.go:32-50 | the collection of a put takes the versions before it whether the new object is still there or deleted again |
| S3Ops.Store.DeleteObject | src/s3/object.go:284-312 | a delete takes the version with the highest rover and its charges, and succeeds when there is none |
| S3Ops.Store.FindCur | src/s3/object.go:80-90 | the Active version of the key with the highest rover, None exactly when there is none |
| S3Ops.Store.FindOutdated | src/s3/gc.go:32-50 | the list GC works on: the Active versions of the key below the threshold, each once, highest rover first |
| Listing.ListBucket | src/s3/bucket.go:396-516 | the one-pass loop returns the page of the specification: resumed behind the token or StartAfter key, one row a key, grouped, cut at max-keys |
| Listing.PrefixBetween | src/s3/bucket.go:457-470 | keys that share a prefix are contiguous in key order |
| Listing.LtMeans | src/s3/bucket.go:436 | keys are compared at the first letter in which they differ |
| Listing.GroupSpreads | src/s3/bucket.go:457-470 | every key that begins with a group belongs to that group |
| ListingPages.DedupIsCurrent | src/s3/bucket.go:436-456 | dropping repeated keys keeps, in strict key order, exactly the version FindCurObject returns for each key |
| ListingPages.ClassMeans | src/s3/bucket.go:457-470 | a key is listed, dropped or grouped according to where the delimiter first occurs behind the prefix |
| ListingPages.StartsAfter | src/s3/bucket.go:436-456 | resuming lists the greater keys if and only if the key is itself listed or nothing is greater |
| ListingPages.NothingAfterMissing | src/s3/bucket.go:436-456 | resuming behind a key that is not listed yields nothing although a greater key is there |
| ListingPages.SessionIsPages | src/s3/bucket.go:471-516 | requests that follow the tokens give consecutive pages of one sequence, and end |
| ListingPages.GroupsDontCross | src/s3/bucket.go:457-513 | no group of a full page occurs on a later one |
| ListingPages.PagesAddUp | src/s3/bucket.go:436-500 | the pages' contents concatenate to the plainly listed keys; every page but the last is full |
| ListingPages.PagesNameGroupsOnce | src/s3/bucket.go:502-513 | every group is named on exactly one page |
| ListingPages.WholeListing | src/s3/bucket.go:396-516 | a whole listing yields the current version of every later key that is not grouped, once and in key order, on full pages and one that is not |
| ListingPages.WholeListingGroups | src/s3/bucket.go:396-516 | and names exactly the groups of the later keys, each on one page |
| UploadSafety.StepKeepsInv | src/s3/upload.go:130-442 | every step of part uploads, finishers, aborters and drops keeps the upload invariant |
| UploadSafety.ReachableInv | src/s3/upload.go:130-442 | the upload invariant holds in every reachable state |
| UploadTheorems.Exclusion | src/s3/upload.go:130-172 | lock and ref count the holders and the part uploads in flight; lock is 0 or 1, and one of them is 0 |
| UploadTheorems.TakenExactly | src/s3/upload.go:130-172 | the lock is taken exactly when the upload is Active with no part upload, finisher or aborter at work, a reference exactly when no finisher or aborter is |
| UploadTheorems.ReleaseMatches | src/s3/upload.go:141-172 | dbRefDec, dbUnlock and the two steps of removal always match |
| UploadTheorems.HoldersNeverFail | src/s3/upload.go:184-320 | the finisher's insert finds the object id free and a deletion finds every part on its list |
| UploadTheorems.LockFreezesParts | src/s3/upload.go:246-320 | while the lock is held no step adds a part or makes one Active; while a finisher creates, no step changes any |
| UploadTheorems.CompletedOnce | src/s3/upload.go:283-320 | an upload is completed at most once, and from then on nobody gets a reference or the lock |
| UploadTheorems.FinishedObject | src/s3/object.go:141-182 | while the object is Active it holds exactly the parts Active at the lock and its size is what they declared together; a read yields as many bytes exactly when every part holds what it declared, and always the same bytes exactly when parts of one number can be swapped |
| UploadTheorems.TotalsAgree | src/s3/data.go:490-535 | parts hold as many bytes together as they declared exactly when each of them does |
| UploadOrder.OneBodyExactly | src/s3/data.go:54-72 | every order the query may return the parts in yields the same bytes if and only if any two parts of one number hold bytes that can be swapped |
| UploadOrder.DistinctNumbersSwap | src/s3/data.go:54-72 | distinct part numbers are enough for that |
| UploadOrder.ReuploadReadsTwoWays | src/s3/upload.go:246-281 | two parts of one number with two bodies |
| UploadTheorems.PartPosition | src/s3/data.go:325-339 | the bytes of a part stand behind those of the parts before it |
| UploadTheorems.ResumParts | src/s3/data.go:490-535 | the loop returns the declared sizes summed and the bytes of the Active parts, or fails exactly when one of them is empty |
| UploadTheorems.EmptyPartBlocks | src/s3/data.go:505-510 | a finisher gives the lock back instead of making an object exactly when one of the parts is empty, and then with nothing changed |
| UploadTheorems.EmptyPartHappens | src/s3/upload.go:246-281 | a run that leaves an Active part without data in an open upload: its body broke off over the inline limit |
| UploadTheorems.QuietUpload | src/s3/upload.go:184-320 | with nothing in flight an open upload has no object, an aborted one left nothing, a completed one an object with all its parts or no parts |
| UploadOps.Multipart.DbLock | src/s3/upload.go:130-139 | the lock is taken exactly when the record is Active with nobody at work |
| UploadOps.Multipart.UploadPart | src/s3/upload.go:246-281 | run alone a part upload adds exactly its part, with its declared size and what was stored of it, or nothing, and gives its reference back either way |
| UploadOps.Multipart.RemoveLocked | src/s3/upload.go:184-218 | under the lock the upload goes, and with it all its parts if it is aborted |
| UploadOps.Multipart.UploadFini | src/s3/upload.go:283-320 | it works exactly when nobody is at work, no part is empty and the object is accepted: the object has the size of all parts and the upload is gone; else everything is as before |
| UploadOps.Multipart.UploadAbort | src/s3/upload.go:415-442 | with nobody at work nothing is left; else nothing happens |
| DataPath.ChunkReader.Next | src/s3/data.go:77-105 | the next buffer for any cut of the body into reads: what the body has, padded with zeros; read counts the body's bytes only |
| DataPath.CutStores | src/s3/data.go:107-154 | the chunks of a body concatenate to its declared part and the padding |
| DataPath.NoPadding | src/s3/data.go:85-103 | nothing is padded exactly when the body is whole or ends at a full buffer |
| PartStore.StoredExactly | src/s3/data.go:385-434 | a part holds exactly the declared bytes if and only if the body is whole or ends at a full buffer |
| PartStore.PaddedByte | src/s3/data.go:85-103 | one byte of two that were declared is stored as two |
| PartStore.ChunkDb.WriteChunks | src/s3/data.go:107-154 | the chunks are those of the specification under new ids; a failing read leaves none |
| PartStore.ChunkDb.AddPart | src/s3/data.go:385-434 | inline or in chunks the part holds the stored bytes; it fails exactly for a body that breaks off within the inline limit, and reports success without data over it |
| PartStore.ChunkDb.PutData | src/s3/handlers.go:549-565 | a PUT keeps its data exactly when the body is as long as announced, and then keeps exactly those bytes |
| PartStore.ChunkDb.DeleteChunks | src/s3/data.go:197-218 | the listed chunks go and no other |
| PartStore.ChunkDb.CopyChunks | src/s3/data.go:156-195 | a copy has the same bytes in chunks no row had before; it fails exactly when a chunk is gone |
| PartStore.ChunkDb.CopyPart | src/s3/data.go:341-383 | the copy of a part has its number, size and bytes |
| PartStore.ChunkDb.CopyParts | src/s3/object.go:184-239 | all parts are copied with the same data, none sharing a chunk with another or with what was there; it fails exactly when a chunk is gone |
| HttpRange.ClosedRange | src/common/http/main.go:199-235 | bytes=from-to is accepted exactly when to is not before from; its end wraps exactly for the largest int64 |
| HttpRange.LargestEnd | src/common/http/main.go:199-235 | the header from 0 to the largest int64 gives a range that ends at the smallest |
| HttpRange.OpenRange | src/common/http/main.go:218-220 | bytes=from- runs to the end, for every from but the largest int64 |
| HttpRange.SuffixRange | src/common/http/main.go:209-217 | suffix ranges are refused |
| HttpRange.RangeShape | src/common/http/main.go:228-235 | whatever the header, an accepted range is not empty or its end has wrapped |
| HttpRange.AcceptedExactly | src/common/http/main.go:199-235 | a header is accepted exactly when it is bytes= and one range of two numerals in order, the second of them optional, with white space around it or none; and what it gives is what is written |
| HttpRange.RefusedHeaders | src/common/http/main.go:199-208 | several ranges and other units are refused |
| HttpRange.SpacesIgnored | src/common/http/main.go:210 | white space around the range changes nothing |
| RangeRead.SendChunk | src/s3/handlers.go:438-462 | the slice bounds hold for every object, and what is written extends the window of the body that was asked for |
| RangeRead.SendChunks | src/s3/data.go:54-72 | fails exactly when a chunk is missing, else every byte of the window is written once |
| RangeRead.SendParts | src/s3/handlers.go:421-465 | for a whole object the two loops write body[from..to]; for any object read from its beginning they write all there is up to the first hole, as far as the range goes; and downloaded is what was written |
| RangeRead.GetObject | src/s3/handlers.go:366-480 | refused exactly for a header that asks for no range within the object; else the reply is the slice and as long as announced, unless the end has wrapped: then nothing is sent, and the announced length is negative exactly from the first byte on |
| RangeRead.RepliesMean | src/s3/handlers.go:366-480 | without a header the reply is the whole object, with one the bytes from the first to the last asked for, as far as there are any, or a refusal |
| RangeRead.ReachesAll | src/s3/handlers.go:421-465 | an object without a missing chunk or an empty part is reached to its end |
| RangeRead.PutCopyGet | src/s3/handlers.go:366-570 | PUT, copy, GET: for every cut, buffer size and Range header or none, object and copy give the reply that the body itself determines |
| Download.QuotaHolds | src/s3/acct.go:104-128 | in every run without a negative size, and within 64 bits, admitted downloads stay within OutBytesTot plus the offset, and the counters fall short of nothing admitted |
| Download.CountsServedExactly | src/s3/acct.go:104-128 | in every run, with nothing left to take back, the counters have grown by what was served if and only if no negative size was admitted, else by less |
| Download.EachCounter | src/s3/acct.go:104-128 | in every run each download is counted, and a refused one taken back, on the counter of its kind |
| Download.NegativeMisses | src/s3/acct.go:104-128 | a run in which a negative size is charged and ten times the quota is served |
| Download.AdmittedExactly | src/s3/acct.go:104-128 | a download of any size, negative ones included, is admitted exactly without a limit or when twice its size fits beside what is charged, added up in 64 bits |
| Download.FirstOneRefused | src/s3/acct.go:104-128 | the first download of 60 bytes under a quota of 100 is refused |
| PodsSafety.StepKeepsInv | src/gate/pods.go:59-139 | with one deleter every step of adders, deleter and lookups keeps the pod store invariant |
| PodsTheorems.DeadTables | src/gate/pods.go:74-104 | a dead table is empty and not in the store when its lock is free; a live one is the one in the store |
| PodsTheorems.Refines | src/gate/pods.go:74-104 | the store is an atomic map: one step of an add adds its pod, one step of a delete removes its pod, no other step changes anything |
| PodsTheorems.AddReturnsInserted | src/gate/pods.go:88-104 | an add returns only when its pod is there; a delete that finds no table had nothing to delete |
| PodsTheorems.LookupLinearizes | src/gate/pods.go:124-139 | what a lookup returns is what the function's pods were at some moment of the call |
| PodsTheorems.CompletedAddIsFound | src/gate/pods.go:88-139 | a completed add that no delete undoes is found by every later lookup |
| PodsTight.InsertsExactly | src/gate/pods.go:88-104 | an add inserts exactly when its table is still the one in the store, and else begins again |
| PodsTight.ErasesExactly | src/gate/pods.go:74-86 | a delete throws the table away exactly when the function has no pods left |
| PodsTight.QuietStoreIsTight | src/gate/pods.go:74-104 | with nothing in flight a function is in the store exactly when it has pods, whatever was interleaved |
| PodOps.PodStore.Add | src/gate/pods.go:88-104 | on the objects: the function's pods gain exactly this pod, no other function's change |
| PodOps.PodStore.Del | src/gate/pods.go:74-86 | the function's pods lose exactly this pod; a table that runs empty is marked dead and leaves the store |
| PodOps.PodStore.FindAll | src/gate/pods.go:124-139 | every pod of the function is found, once |
| ScalerTheorems.AtMostOneScaler | src/gate/scaler.go:92-120 | at most one scaler is live, and the goal is at most MaxReplicas or an initial goal |
| ScalerTheorems.NoLostDemand | src/gate/scaler.go:29-81 | a scaler that sleeps unsignalled has replicas for the goal, in every run in which no failed call asked for more replicas than there were |
| ScalerTheorems.FailedCallLosesDemand | src/gate/k8s.go:724-748 | a run from one replica in which a failed call leaves a scaler asleep on a goal of two |
| ScalerTheorems.OverstatesExactly | src/gate/scaler.go:29-81 | a scaler comes to believe in more replicas than there are exactly by a failed call that asked for more than there were |
| ScalerTheorems.FailedCallExactly | src/gate/k8s.go:724-748 | right after a failed call the scaler falls asleep on unmet demand exactly when the goal is above the replicas and within what the call asked for; on the way down it lowers the goal by one first |
| ScalerTheorems.DeafExactly | src/gate/scaler.go:83-90 | the condition variable is left without a scaler exactly when one finds the goal 0 at one of its two tests |
| ScalerTheorems.DeafHappens | src/gate/scaler.go:83-90 | a run of one goal and one stop to a condition variable without a scaler |
| ScalerTheorems.DeafForGood | src/gate/scaler.go:92-133 | then only scalerInit starts a scaler again, and nothing else changes the replicas |
| ScalerTheorems.QuietStep | src/gate/scaler.go:29-81 | without new demand every step brings the scaler nearer to its end and keeps the outcome |
| ScalerTheorems.QuietRunEnds | src/gate/scaler.go:29-81 | left alone it can always move, ends within a bounded number of steps, and leaves the computed number of replicas |
| ScalerTheorems.StartedForOne | src/gate/scaler.go:92-120 | a run of two goals and a stop to a scaler started for one replica where there are five |
| ScalerTheorems.StartedOutcome | src/gate/scaler.go:29-81 | every run of a scaler from its start to its end without new demand leaves one replica when the goal was two or more, else the larger of the goal and what there was |
| ScalerTheorems.SetAtOnce | src/gate/scaler.go:92-120 | scalerSetGoal raises the goal exactly when it is more and not past the maximum, and then starts or signals a scaler, else changes nothing |
| ScalerTheorems.AsksExactly | src/gate/scaler.go:29-81 | a scaler asks for more exactly when the goal is above what it believes, and for less exactly when the goal stayed below that during its wait |
| ScalerOps.Balancer.SetGoal | src/gate/scaler.go:92-120 | the goal rises or stays, never past the maximum; a scaler is started or signalled exactly when it rises |
| ScalerOps.Balancer.DepScale | src/gate/k8s.go:724-757 | scaling moves the count only the way it was asked to |
| ScalerOps.Balancer.FnScaler | src/gate/scaler.go:29-81 | the goto loop run alone ends, with the replicas of the outcome and the goal at most one |
| RateLimit.RefillPays | src/common/ratelimit/rl.go:34-60 | a refill adds no more tokens than its stretch of the clock pays for, up to the rounding, and the clock never passes the present |
| RateLimit.RefusedExactly | src/common/ratelimit/rl.go:34-50 | Get is refused exactly when the bucket is empty and not one token has come in, and then changes nothing |
| RateLimit.WholeBaseArrives | src/common/ratelimit/rl.go:34-63 | after a whole base an empty bucket admits exactly burst Gets at one moment |
| RateLimit.EarnedArrive | src/common/ratelimit/rl.go:34-63 | before that it admits what has come in, up to burst, and its clock moves only by what these tokens took |
| RateLimit.NoMoreArriveExactly | src/common/ratelimit/rl.go:45-60 | and no more, exactly when what is left on the clock is less than a token, as it is when eps divides base |
| RateLimit.OneMoreByRounding | src/common/ratelimit/rl.go:45-60 | seven units at seven tokens a base of ten: four have come in and five are admitted |
| RateLimit.FreshIsFull | src/common/ratelimit/rl.go:74-77 | a new bucket admits exactly one more Get at once than its burst |
| RateLimit.PutUndoesGet | src/common/ratelimit/rl.go:22-63 | Put after Get leaves the bucket as refilled |
| RateLimit.RunBound | src/common/ratelimit/rl.go:22-77 | over every run of Get and Put the net admissions are bounded by first fill, elapsed time at the larger rate, and a rounding loss that vanishes when eps divides base |
| Limiters.RL.Get | src/common/ratelimit/rl.go:34-63 | the method computes the step whose refusals, yield and bounds are proved in RateLimit, with every product inside 64 bits |
| Limiters.RL.Put | src/common/ratelimit/rl.go:22-28 | the method computes the specified step |
| Limiters.RL.Update | src/common/ratelimit/rl.go:65-72 | afterwards the limiter is as a new one |
| Limiters.RL.constructor | src/common/ratelimit/rl.go:74-77 | a new limiter is full |
| Limiters.Ratelimited | src/gate/fdmdat.go:240-270 | a request passes exactly when none of the three limiters refuses it and then takes one token of each; else each is as it was or as refilled |
| Proxy.SplitIsExact | src/common/tcproxy/proxy.go:43-60 | the greedy split loses and reorders nothing, and every frame is as long as it announces |
| Proxy.CutAnywhere | src/common/tcproxy/proxy.go:43-60 | cutting the stream into reads anywhere changes neither the frames nor the rest |
| Proxy.FramesArrive | src/common/tcproxy/proxy.go:43-60 | bodies, each with its length in four bytes in front, the least significant first, are split into just these frames, whatever follows |
| Proxy.MessagesPass | src/common/tcproxy/proxy.go:43-60 | so all of them are forwarded, and of an incomplete one behind them nothing is |
| Proxy.FrameFirst | src/proxies/mgo/request.go:188-229 | a frame of any length is cut off as soon as it and sixteen bytes are there and the pipeline accepts |
| Proxy.SixteenBytesPass | src/proxies/mgo/request.go:188-229 | a header alone that announces sixteen bytes is a frame |
| Proxy.ZeroFrameBlocks | src/proxies/mgo/request.go:188-229 | with a pipeline that refuses nothing, nothing that comes is ever forwarded any more if and only if the bytes in front announce length zero |
| Proxy.ZeroFrameStalls | src/proxies/mgo/request.go:188-229 | behind a complete header that announces zero every read is kept, whatever the pipeline says |
| Proxy.FourZeroBytesBlock | src/proxies/mgo/request.go:188-229 | four zero bytes block a connection |
| Proxy.Target.DataReady | src/common/tcproxy/proxy.go:23-36 | however little a write takes, all of the data is sent, once and in order |
| Proxy.Collector.Try | src/proxies/mgo/request.go:188-229 | the announced length of the frame in front, when header and frame are there and the pipeline accepts |
| Proxy.Collector.DataReady | src/common/tcproxy/proxy.go:43-60 | after any read the frames of collected bytes and data are forwarded and seen once in order, and the rest is kept |
| Proxy.Collector.Forward | src/common/tcproxy/proxy.go:79-103 | over a connection forwarded and kept bytes are the split of all bytes received; the pipeline saw each frame once, and nothing else unless a zero or refused frame stands in front |
| Queue.PacketsOf | src/common/xqueue/queue.go:52-63 | packets concatenate to the wire bytes, none is empty, all but the last have 1024 bytes |
| Queue.MessageOfPackets | src/common/xqueue/queue.go:97-131 | a receive consumes exactly its own message's packets, whatever follows |
| Queue.RoundTrip | src/common/xqueue/queue.go:74-131 | a message arrives as sent exactly when it does not end in a zero byte or its length is a multiple of 1024, and else without its last byte |
| Queue.ZeroIsLost | src/common/xqueue/queue.go:74-131 | a message of one zero byte arrives empty |
| Queue.SequenceRoundTrip | src/common/xqueue/queue.go:74-131 | a sequence of messages comes out as it went in exactly when each of them does |
| Queue.Split | src/common/xqueue/queue.go:52-63 | the loop computes the packets |
| Queue.Socket.SendBytes | src/common/xqueue/queue.go:74-95 | the packets of the padded message are appended to the socket |
| Queue.Socket.RecvBytes | src/common/xqueue/queue.go:97-131 | the loop takes one message off the front and leaves the rest |
| Stats.StepKeepsInv | src/gate/stats.go:208-249 | every field step of updates, copies and writes keeps the invariant of each counter |
| Stats.Conservation | src/gate/stats.go:297-345 | the database has what onDisk says; with what memory is ahead by and what an update still adds, that is all updates |
| Stats.DeltasGrow | src/gate/stats.go:297-309 | no delta written is negative, although fields are copied without the lock |
| Stats.QuietIsFlushed | src/gate/stats.go:354-375 | with no update, write or flag pending memory and database agree if and only if no write with something to add has failed without a successful one since |
| Stats.SuccessCatchesUp | src/gate/stats.go:297-315 | a successful write that no update overlaps brings the database up to date, whatever failed before |
| Stats.OneUpdateStored | src/gate/stats.go:297-375 | a run of one update and one write after which memory and database agree |
| Stats.FailedWriteForgets | src/gate/stats.go:354-371 | a run after which nothing is in flight or flagged and the database lacks an update |
| Stats.FailedWriteExactly | src/gate/stats.go:297-315 | a failing write that no update overlaps leaves the database behind exactly when it had something to add |
| Stats.WaitsForAnUpdate | src/gate/stats.go:354-375 | in such a state the only thing that can happen is a new update, and its lock brings nothing to the database |
| Stats.RowsAddUp | src/gate/stats.go:86-181 | the rows add up to the current totals |
| Stats.RowsMean | src/gate/stats.go:86-181 | each row has field by field the difference of the records it lies between |
| Stats.RowsAdjoin | src/gate/stats.go:86-181 | each row begins where the next older one ends |
| Stats.GetStats | src/gate/stats.go:136-181 | for as many archived records as were asked for, each row has field by field the difference of the records it lies between, and the last one what the oldest record says |

## Left out

- S3Safety.ReachableInv: bucket handles are any bucket record ever inserted, ids of new objects are fresh or those of an upload no operation in flight refers to, and cookies (digests) are taken as injective.
- S3Ops.Store.AddObject: storing the data is a parameter that says whether it worked; access lists, ETags and notifications are not modelled.
- S3Ops.Store.PutObject: run alone but for the collection it starts, which runs as a whole before or after the handler's test; steps in between are `S3Safety.StepKeepsInv`.
- Listing.ListBucket: the prefix is literal, where the source puts it into a regular expression; the bucket does not change between pages; owners, dates and storage classes of entries are not modelled.
- UploadSafety.ReachableInv: one upload record and the object made of it, on values; several uploads of one key are several such records. What is stored of a part never exceeds its declared size; how its body is cut and padded is `PartStore`.
- PartStore.ChunkDb.PutData: the row is dropped directly; that the source deletes the current version of the key by name is `S3Ops.Store.PutObject`, run alone, where a racing put could have replaced it. An announced length from 2^63 on, which turns negative, is not modelled.
- Proxy.ZeroFrameBlocks: the equivalence is for a pipeline that refuses nothing; a refused frame ends the connection.
- RangeRead.GetObject: for an object with short or missing parts only ranges from its beginning are specified; status codes and headers other than Content-Length; a range that begins at the size gets an empty reply, as coded, where RFC 7233, section 4.4, has it unsatisfiable.
- HttpRange.RangeShape: white space is that of Latin-1.
- PartStore.ChunkDb.CopyParts: a copy that races a delete of its source may find fewer parts; the source's rows are fixed here.
- Download.QuotaHolds: the counters themselves are unbounded, as is the limit with its offset; only the comparison is in 64 bits.
- PodsTheorems.Refines: one deleter, which is all that podEventLoop has; an add that starts after the delete of its own pod is not excluded and stays.
- ScalerTheorems.AtMostOneScaler: scalerInit is taken only when no scaler is live and for more than one replica, as at start-up; fairness and real time are not modelled, timers are steps.
- RateLimit.RunBound: time is an argument that never goes back; Update starts a new run. base * eps within int64 is required, which holds for a base of one second and every configured rate.
- Limiters.Ratelimited: run without interleaving, on three distinct limiters.
- Proxy.Collector.Forward: write errors, and decoding inside a frame, which can crash on a document without fields.
- Queue.Socket.RecvBytes: a blocking read is a result of None; timeouts are not modelled.
- Stats.GetStats: counters are unbounded integers, and GBS is a linear image of RunCost; LastCall is not additive and left out.
- Objects, uploads, pods, the scaler and statistics under interleaving are step relations on values; in-place update is modelled where the code runs alone, and for statistics only in the rows.
- PodOps.PodStore.Add: the second round behind a dead table is not there, as it is never taken alone; `PodsTheorems` has it.
- ScalerOps.Balancer.FnScaler: locks and waits are left out, as nobody else is about; `ScalerTheorems` has them.
- Rados, object notifications, access keys, IAM policies and request signing: foreign calls or finite tables.
- Crash repair of buckets, objects and uploads: it does not restore the counts for every crash point.
- HTTP routing, XML and JSON, AMQP, websockets, git and the Kubernetes client: input and output.
- The balancer's pod cache, deployment rollback, the function life cycle, the maria proxy and the language runners.
