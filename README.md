# Bucket replication driver, modelled in Dafny

The repository is a small Go program. It copies every object of each configured source bucket into its destination bucket, through server-side copies on an S3-compatible object store. Its core is the `Syncronizer` in `main.go`:

- `listObjects` enumerates a bucket page by page with ListObjectsV2. It prints a progress line "Object n: key" per object and collects one reference "bucket/key" per object.
- `migrate` issues one CopyObject per reference, in order. Each copy uses the reference as both copy source and destination key, and the method stops at the first refused copy.
- `Sync` walks the configured `(source, dest)` pairs in declared order. For each pair it runs `listObjects` and then `migrate`, returning at the first error.

The project has three files, one per layer:

- `storage.dfy` (module `Storage`) is an abstract, deterministic model of the object store:
  - every bucket's listing is a sequence of pages;
  - a request with a continuation token is answered with the page after the one that issued the token;
  - the service refuses the calls whose number in the run is in a given set (standing for transient faults);
  - it also refuses any call on a bucket that does not exist (`NoSuchBucket`), and a list call with a token that no page issued (`InvalidToken`).
- `replication.dfy` (module `Replication`) describes each of the three operations as a function of the service and of the number of calls issued so far. The function gives the calls the operation issues, the progress lines it prints and what it returns. The lemmas state what the source promises about those runs.
- `driver.dfy` (module `Driver`) is the `Syncronizer` as a class:
  - it holds the service, the locations and a bound on list calls;
  - it keeps a trace of every call issued and of every progress line printed;
  - its methods mirror the Go methods loop for loop, and each is proved to do exactly what the matching `Replication` function says.

The loop in `listObjects` never sends the continuation token (see Findings). As written, a bucket whose first page is truncated is listed forever. The model bounds the number of list calls one `listObjects` may issue (`listBudget`). A run that reaches the bound ends with the outcome `Exhausted`, which stands for "has not returned". Error values mirror the `fmt.Errorf` wrapping layers as constructors of `Replication.Error`.

## Model

| member | source | states |
|---|---|---|
| Storage.ResumeFollowsIssuer | main.go:86-88 | In a well-formed listing, the token issued by page k resumes at page k + 1, so a token identifies its page. |
| Storage.ResumedPage | main.go:91 | A list request carrying page k's token is served page k + 1, unless that call is refused. |
| Replication.ListLoopPrintsEveryKey | main.go:81-99 | The loop prints one progress line per key it receives, numbered on from the starting counter, in the order the service delivered the keys. |
| Replication.ListLoopFollowsResponses | main.go:80-103 | On success the result is, in service order, exactly "bucket/key" for each key of the pages consumed. |
| Replication.ListLoopCountsMatch | main.go:96-103 | On success there are as many progress lines as appended references; the k-th line is numbered start + k and names the key of the k-th reference. |
| Replication.ListLoopCallBound | main.go:90-110 | The loop issues at most its bound of calls, and at least one whenever the bound is positive (none for a bound of 0); it is cut off only after using the whole bound. |
| Replication.ListLoopContinuesOnlyWhenTruncated | main.go:105-110 | Every list call except the last one received a truncated page. |
| Replication.ListLoopStopsOnFinalPage | main.go:91-107 | A list is returned only after an untruncated page. An error, and no list, is returned only when the last call was refused, and it carries that refusal. A cut-off run ends on a truncated page. |
| Replication.AsWrittenRequestsCarryNoToken | main.go:79-109 | As written, every list request asks for the bucket and carries no continuation token. |
| Replication.AsWrittenTruncatedFirstPageExhausts | main.go:83-110 | As written, a truncated, served first page is received again on every call, so the loop never returns and prints the first page's keys over and over. |
| Replication.AsWrittenListsOnlyFinalFirstPage | main.go:83-112 | As written, a list is returned iff the single first call is served an untruncated first page; the list is then exactly that page's references. |
| Replication.ChainKeys | main.go:96-103 | Requests that are served a chain of pages receive the keys of those pages, in order. |
| Replication.ListLoopFollowsChain | main.go:90-110 | The corrected loop follows any served chain of pages that ends with a final page within its bound, issues exactly the chain's requests, and returns a list. |
| Replication.ListingServesFrom | main.go:83-91 | Without refusals, the token-carrying requests of a well-formed listing are served its pages in order. |
| Replication.ListingChainedFrom | main.go:105-109 | In a well-formed listing, each page but the last is truncated, and its token makes the next request. |
| Replication.ResumingListsEveryPage | main.go:78-113 | The corrected loop lists a well-formed bucket completely: one call per page, each later call carrying the token of the page before it, one line per key, and every key's reference in service order. |
| Replication.MigrationCopiesInOrder | main.go:115-125 | migrate issues copies of a prefix of the references, in order, each into the destination with the reference as source and key; all of them on success; on failure, up to and including the first refused copy, and it returns that refusal. |
| Replication.MigrationAbortsAtFirstFailure | main.go:122-124 | When the copy of refs[j] is the first one refused, exactly the copies of refs[..j + 1] are issued, none of refs[j + 1..] is, and that refusal is returned. |
| Replication.MigrationSucceedsIffAllCopiesServed | main.go:115-127 | migrate returns nil iff every one of its copies is served. |
| Replication.MigrationRejections | main.go:116-127 | A failed migrate ended on its one refused copy; a successful one had every copy served. |
| Replication.RunPairShape | main.go:180-189 | All list calls of a pair precede its copies. They ask for the source without a token, and any copies follow one final first page and copy a prefix of its references into the destination, in order. |
| Replication.RunPairComplete | main.go:180-189 | A pair that lets Sync go on is complete: one list call, one line and one copy per key of the final first page, in order. |
| Replication.ListRunRefusedLast | main.go:91-94 | A listing that fails issued served calls and then exactly one refused call. |
| Replication.ListRunServed | main.go:90-112 | A listing that does not fail had every call served. |
| Replication.RunPairRefusedLast | main.go:181-189 | A failed pair ended on its one refused call; every call before it was served. |
| Replication.RunPairServed | main.go:181-189 | A pair that does not fail had every call served. |
| Replication.PairAfterRefusedLast | main.go:186-189 | After a listing that failed on its last call or had every call served, a failed pair ended on its one refused call. |
| Replication.PairAfterServed | main.go:186-189 | After a listing whose calls were all served, a pair that does not fail had every call served. |
| Replication.SyncCoversPrefix | main.go:179-197 | Sync covers a prefix of the locations, one pair per location, all of them on success. With no locations it issues no calls and returns nil. |
| Replication.SyncPairsInOrder | main.go:179-190 | Pair trace i belongs to location i, in declared order, with each pair's list calls before its copies. |
| Replication.SyncPairsComplete | main.go:179-190 | Pair i finishes before pair i + 1 starts: every pair before the last, and all of them on success, is complete. |
| Replication.SyncAbortsAtFirstFailure | main.go:181-189 | When Sync fails, the last call it issued was refused and every call before it was served, so no call and no later pair follows a refusal. |
| Replication.SyncServesAll | main.go:179-197 | When Sync does not fail, every call it issued was served. |
| Replication.ResumingPairReplicates | main.go:180-189 | With the corrected listing and no refusals, a pair over a well-formed source and an existing destination succeeds: one call per page, and one copy per key of every page, in order. |
| Replication.ResumingSyncReplicatesEverything | main.go:179-197 | With the corrected listing and no refusals, Sync over such pairs succeeds and replicates every pair completely, in declared order. |
| Replication.EmptySourcePairGoesOn | main.go:96-116 | A pair whose single list call is served an empty, final first page issues that one call, prints nothing, copies nothing and lets Sync go on to the next pair. |
| Replication.EmptySourceCopiesNothing | main.go:96-116 | A source whose only page is empty and final yields no copies. Once that pair is finished, its trace is the single list call. |
| Replication.TwoPageBucket | main.go:83-110 | On a concrete bucket of two pages, the loop as written never returns, however many calls it may issue. The corrected loop issues two calls, the second carrying the first page's token, and returns the three references. |
| Driver.Syncronizer.constructor | main.go:37-40 | The driver starts with the given client and locations, a positive bound on list calls, an empty call trace and no progress output. |
| Driver.Syncronizer.ListObjectsV2 | main.go:91 | A list call is answered as the next call of the run and is appended to the trace. |
| Driver.Syncronizer.CopyObjectCall | main.go:117-121 | A copy call is answered as the next call of the run and is appended to the trace. |
| Driver.Syncronizer.ConsumePage | main.go:96-103 | The two loops over a page: one progress line per key, numbered on from the counter, then one reference per key appended in order. |
| Driver.Syncronizer.ListStep | main.go:91-107 | One loop iteration issues one call. It ends the run on a refusal or a final page, and otherwise leaves the rest of the run as the listing function says. |
| Driver.Syncronizer.ListObjects | main.go:78-113 | listObjects as written issues exactly the calls, prints exactly the lines and returns exactly the outcome that the as-written listing function gives. |
| Driver.Syncronizer.ListObjectsResuming | main.go:78-113 | The corrected listObjects does the same for the token-resuming listing function. |
| Driver.Syncronizer.Migrate | main.go:115-128 | migrate issues exactly the copies and returns exactly the status that the migration function gives. |
| Driver.Syncronizer.SyncPair | main.go:181-189 | One Sync iteration appends exactly that pair's list calls and then its copy calls, and returns the pair's outcome. |
| Driver.Syncronizer.Sync | main.go:179-198 | Sync appends exactly the calls and lines of the synchronisation function, pair after pair, and returns its outcome. |

## Left out

- Reading `config.yaml` and decoding it (main.go:23-35, 56-64): file I/O and a foreign YAML library. The locations are a constructor argument.
- `loadS3`, `Init` and `main` (main.go:42-54, 66-76, 200-207): SDK configuration, process exit through `log.Fatalf`, and glue.
- The exact text of the progress output (main.go:97): each line is modelled as a `ProgressLine(n, key)` value appended to `progress`.
- The SDK's wire format, retries and timeouts, and the dereferences of its optional fields. The service is an abstract oracle whose refusals are given by call number.
- The commented-out `activateLiveReplication` (main.go:130-177, 191-194): dead code.
- Non-termination: `Driver.Syncronizer.ListObjects` and `Replication.ListLoop` follow the loop only for `listBudget` calls. A run that has not returned by then ends with `Exhausted`, which here always means "still looping".
- Listings are fixed for the run: a copy does not change what a later listing of the destination returns.
- A served truncated page without a `NextContinuationToken` would make main.go:109 dereference nil. The model gives every page a token string and does not model that panic.
- Sync's error carries no pair index: main.go:181-189 wraps only the inner error with its phase, and the model does the same (`SyncListing`/`SyncMigrating`).
- Each listObjects iteration is a helper method (`ListStep`), and each Sync iteration is one (`SyncPair`). The statements are the same as in the Go loops; only the split into methods differs.

## Findings

| source | as written | input that shows it | evidently intended | confidence | as-written member | corrected member |
|---|---|---|---|---|---|---|
| main.go:83-109 | The request is built once before the loop, while the token is still empty; line 109 only updates a local variable, so no request carries the token and line 91 always asks for the first page | `Replication.TwoPageService`: bucket "src" with a truncated page [a, b] (token "T") and a final page [c]; as written, the listing never returns | Build each request from the current token, so that the second call asks for page 2 and the result is [src/a, src/b, src/c] | not executed | Replication.AsWrittenTruncatedFirstPageExhausts, Driver.Syncronizer.ListObjects | Replication.ResumingListsEveryPage, Driver.Syncronizer.ListObjectsResuming |

`Replication.RunPair` and `Replication.Synchronization` take the listing variant as a parameter (`resume`). The abort properties `RunPairRefusedLast`, `RunPairServed`, `SyncAbortsAtFirstFailure` and `SyncServesAll`, and the count property `SyncCoversPrefix`, are proved for both variants. `Replication.ResumingSyncReplicatesEverything` is the evidently intended property of Sync with the corrected listing; for that listing, pair i is tied to location i only in the fault-free case it covers. `Driver.Syncronizer.Sync` calls the as-written `ListObjects`, as main.go does. The shape lemmas `RunPairShape`, `RunPairComplete`, `SyncPairsInOrder`, `SyncPairsComplete`, `EmptySourcePairGoesOn` and `EmptySourceCopiesNothing` describe that as-written run. In that run, a pair whose source has more than one page is never completed.
