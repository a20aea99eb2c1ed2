/** An abstract, deterministic model of the object-storage service that the
    replication driver talks to: one operation that lists a page of a
    bucket and one that copies an object server-side. Every call the driver
    issues is numbered by its position in the run (0, 1, 2, ...). The
    service refuses a call whose number is in `failing`, which stands for
    any transient fault the real service may report; it also refuses a call
    on a bucket that does not exist, and a list call with a token that no
    page issued. */
module Storage {

  datatype Option<T> = None | Some(value: T)

  /** One page of a bucket listing: the keys it reports, whether more pages
      follow (IsTruncated) and the token that resumes after it
      (NextContinuationToken). */
  datatype Page = Page(keys: seq<string>, truncated: bool, next: string)

  /** A ListObjectsV2 request: the bucket and an optional continuation token. */
  datatype ListRequest = ListRequest(bucket: string, token: Option<string>)

  /** A CopyObject request: destination bucket, copy source and destination key. */
  datatype CopyRequest = CopyRequest(bucket: string, copySource: string, key: string)

  /** One observable call to the service. */
  datatype Call = List(list: ListRequest) | Copy(copy: CopyRequest)

  datatype ServiceError = Unavailable | NoSuchBucket(bucket: string) | InvalidToken(token: string)

  /** What the service answers: a value, or a refusal with its cause. */
  datatype Reply<T> = Served(value: T) | Refused(error: ServiceError)

  /** The service's state: the listing of every existing bucket, and the
      numbers of the calls it refuses. */
  datatype Service = Service(listings: map<string, seq<Page>>, failing: set<nat>)

  /** The pages the service delivers for an existing bucket; a bucket with
      no stored page is listed as one empty, final page. */
  function Listing(svc: Service, bucket: string): (pages: seq<Page>)
    requires bucket in svc.listings
    ensures |pages| > 0
  {
    if svc.listings[bucket] == [] then [Page([], false, "")] else svc.listings[bucket]
  }

  /** The index of the page that follows the first truncated page, at or
      after index i, that issued `token`; None when no page did. */
  function ResumeFrom(pages: seq<Page>, token: string, i: nat): (r: Option<nat>)
    ensures r.Some? ==> i < r.value < |pages|
    decreases |pages| - i
  {
    if i + 1 >= |pages| then None
    else if pages[i].truncated && pages[i].next == token then Some(i + 1)
    else ResumeFrom(pages, token, i + 1)
  }

  /** ListObjectsV2 as the n-th call of the run. Without a token it answers
      the first page; with a token, the page after the one that issued it. */
  function ListPage(svc: Service, req: ListRequest, n: nat): Reply<Page>
  {
    if n in svc.failing then Refused(Unavailable)
    else if req.bucket !in svc.listings then Refused(NoSuchBucket(req.bucket))
    else
      var pages := Listing(svc, req.bucket);
      match req.token
      case None => Served(pages[0])
      case Some(t) =>
        match ResumeFrom(pages, t, 0)
        case None => Refused(InvalidToken(t))
        case Some(i) => Served(pages[i])
  }

  /** CopyObject as the n-th call of the run: it needs an existing
      destination bucket. */
  function CopyObject(svc: Service, req: CopyRequest, n: nat): Reply<()>
  {
    if n in svc.failing then Refused(Unavailable)
    else if req.bucket !in svc.listings then Refused(NoSuchBucket(req.bucket))
    else Served(())
  }

  /** The refusal, if any, that a call receives as the n-th call of the run. */
  function Rejection(svc: Service, call: Call, n: nat): Option<ServiceError>
  {
    match call
    case List(req) =>
      (match ListPage(svc, req, n) case Served(_) => None case Refused(e) => Some(e))
    case Copy(req) =>
      (match CopyObject(svc, req, n) case Served(_) => None case Refused(e) => Some(e))
  }

  /** The first page of an existing bucket: what a request without a token gets. */
  function FirstPage(svc: Service, bucket: string): Page
    requires bucket in svc.listings
  {
    Listing(svc, bucket)[0]
  }

  /** A listing as a well-behaved service delivers it: every page but the
      last is truncated and carries a non-empty token, the tokens are
      distinct, and the last page is final. */
  ghost predicate WellFormed(pages: seq<Page>)
  {
    && |pages| > 0
    && (forall i :: 0 <= i < |pages| ==> (pages[i].truncated <==> i < |pages| - 1))
    && (forall i :: 0 <= i < |pages| - 1 ==> pages[i].next != "")
    && (forall i, j :: 0 <= i < j < |pages| - 1 ==> pages[i].next != pages[j].next)
  }

  /** In a well-formed listing the token issued by page k resumes at page k + 1. */
  lemma {:induction false} ResumeFollowsIssuer(pages: seq<Page>, k: nat, i: nat)
    requires WellFormed(pages)
    requires i <= k < |pages| - 1
    ensures ResumeFrom(pages, pages[k].next, i) == Some(k + 1)
    decreases k - i
  {
    if i < k {
      assert pages[i].next != pages[k].next;
      ResumeFollowsIssuer(pages, k, i + 1);
    }
  }

  /** A request that carries the token of page k of a well-formed listing
      is answered with page k + 1, unless the call is one the service refuses. */
  lemma ResumedPage(svc: Service, bucket: string, k: nat, n: nat)
    requires bucket in svc.listings && WellFormed(Listing(svc, bucket))
    requires k < |Listing(svc, bucket)| - 1 && n !in svc.failing
    ensures ListPage(svc, ListRequest(bucket, Some(Listing(svc, bucket)[k].next)), n)
            == Served(Listing(svc, bucket)[k + 1])
  {
    ResumeFollowsIssuer(Listing(svc, bucket), k, 0);
  }
}
