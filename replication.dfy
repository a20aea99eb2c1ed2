/** The replication driver's three operations as functions of the service
    and of the number of calls already issued: each gives the calls an
    operation issues, the progress lines it prints and what it returns.
    The Syncronizer class in driver.dfy is proved to behave exactly as these
    functions say; the lemmas here state what that behaviour guarantees. */
module Replication {
  import opened Storage

  /** One configured (source, destination) bucket pair. */
  datatype Locations = Locations(source: string, dest: string)

  /** The errors the driver returns, one constructor per wrapping layer. */
  datatype Error =
    | UnableToList(cause: ServiceError)   // listObjects: "unable to list objects"
    | UnableToCopy(cause: ServiceError)   // migrate: "unable to copy object"
    | SyncListing(inner: Error)           // Sync: "unable to list objects"
    | SyncMigrating(inner: Error)         // Sync: "unable to migrate objects"

  /** What an operation returns. Exhausted stands for a run that has not
      returned after the model's bound on list calls. */
  datatype Outcome<T> = Ok(value: T) | Fail(error: Error) | Exhausted

  /** A progress line "Object <n>: <key>". */
  datatype ProgressLine = ProgressLine(n: nat, key: string)

  function Last<T>(s: seq<T>): T
    requires s != []
  {
    s[|s| - 1]
  }

  /** The copy-source reference "<bucket>/<key>". */
  function Ref(bucket: string, key: string): string
  {
    bucket + "/" + key
  }

  function Refs(bucket: string, keys: seq<string>): seq<string>
  {
    seq(|keys|, i requires 0 <= i < |keys| => Ref(bucket, keys[i]))
  }

  /** The progress lines for `keys`, numbered on from `from`. */
  function ProgressLines(keys: seq<string>, from: nat): seq<ProgressLine>
  {
    seq(|keys|, i requires 0 <= i < |keys| => ProgressLine(from + i, keys[i]))
  }

  /** One copy per reference, the reference used as both source and key. */
  function CopyRequests(dest: string, refs: seq<string>): seq<CopyRequest>
  {
    seq(|refs|, i requires 0 <= i < |refs| => CopyRequest(dest, refs[i], refs[i]))
  }

  function ListCalls(reqs: seq<ListRequest>): seq<Call>
  {
    seq(|reqs|, i requires 0 <= i < |reqs| => List(reqs[i]))
  }

  function CopyCalls(reqs: seq<CopyRequest>): seq<Call>
  {
    seq(|reqs|, i requires 0 <= i < |reqs| => Copy(reqs[i]))
  }

  /** The list request for a bucket and a continuation token: the token is
      attached only when it is not empty. */
  function NextRequest(bucket: string, token: string): ListRequest
  {
    ListRequest(bucket, if token != "" then Some(token) else None)
  }

  predicate Truncated(reply: Reply<Page>)
  {
    reply.Served? && reply.value.truncated
  }

  predicate Final(reply: Reply<Page>)
  {
    reply.Served? && !reply.value.truncated
  }

  // ---------------------------------------------------------------------
  // listObjects

  datatype ListRun = ListRun(requests: seq<ListRequest>, lines: seq<ProgressLine>, outcome: Outcome<seq<string>>)

  /** The enumeration loop of listObjects, started with request `input` as
      call number n, with at most `fuel` list calls left, `objectNum` lines
      printed and `objects` collected so far. After a truncated page the
      next request is `input` again when `resume` is false (the loop as
      written) and carries the page's token when `resume` is true. */
  function ListLoop(svc: Service, bucket: string, input: ListRequest, resume: bool,
                    n: nat, fuel: nat, objectNum: nat, objects: seq<string>): ListRun
    decreases fuel
  {
    if fuel == 0 then ListRun([], [], Exhausted)
    else
      match ListPage(svc, input, n)
      case Refused(e) => ListRun([input], [], Fail(UnableToList(e)))
      case Served(page) =>
        var lines := ProgressLines(page.keys, objectNum);
        var objects' := objects + Refs(bucket, page.keys);
        if !page.truncated then ListRun([input], lines, Ok(objects'))
        else
          var next := if resume then NextRequest(bucket, page.next) else input;
          var rest := ListLoop(svc, bucket, next, resume, n + 1, fuel - 1, objectNum + |page.keys|, objects');
          ListRun([input] + rest.requests, lines + rest.lines, rest.outcome)
  }

  /** The run still to do, while the loop has issued `calls` and printed
      `lines`: `whole` is those followed by the loop from `input` on. */
  ghost predicate ListRemains(whole: ListRun, calls: seq<ListRequest>, lines: seq<ProgressLine>,
                              svc: Service, bucket: string, input: ListRequest, resume: bool,
                              n: nat, fuel: nat, objectNum: nat, objects: seq<string>)
  {
    var rest := ListLoop(svc, bucket, input, resume, n, fuel, objectNum, objects);
    whole == ListRun(calls + rest.requests, lines + rest.lines, rest.outcome)
  }

  /** A refused call ends the loop with that refusal. */
  lemma ListLoopRefused(whole: ListRun, calls: seq<ListRequest>, lines: seq<ProgressLine>,
                        svc: Service, bucket: string, input: ListRequest, resume: bool,
                        n: nat, fuel: nat, objectNum: nat, objects: seq<string>)
    requires ListRemains(whole, calls, lines, svc, bucket, input, resume, n, fuel, objectNum, objects)
    requires fuel > 0 && ListPage(svc, input, n).Refused?
    ensures whole == ListRun(calls + [input], lines, Fail(UnableToList(ListPage(svc, input, n).error)))
  {
    assert lines + [] == lines;
  }

  /** A final page ends the loop with the list collected so far and that page's references. */
  lemma ListLoopFinal(whole: ListRun, calls: seq<ListRequest>, lines: seq<ProgressLine>,
                      svc: Service, bucket: string, input: ListRequest, resume: bool,
                      n: nat, fuel: nat, objectNum: nat, objects: seq<string>)
    requires ListRemains(whole, calls, lines, svc, bucket, input, resume, n, fuel, objectNum, objects)
    requires fuel > 0 && Final(ListPage(svc, input, n))
    ensures var page := ListPage(svc, input, n).value;
            whole == ListRun(calls + [input], lines + ProgressLines(page.keys, objectNum),
                             Ok(objects + Refs(bucket, page.keys)))
  {
  }

  /** After a truncated page the loop goes on from the next request. */
  lemma ListLoopContinues(whole: ListRun, calls: seq<ListRequest>, lines: seq<ProgressLine>,
                          svc: Service, bucket: string, input: ListRequest, resume: bool,
                          n: nat, fuel: nat, objectNum: nat, objects: seq<string>)
    requires ListRemains(whole, calls, lines, svc, bucket, input, resume, n, fuel, objectNum, objects)
    requires fuel > 0 && Truncated(ListPage(svc, input, n))
    ensures var page := ListPage(svc, input, n).value;
            var next := if resume then NextRequest(bucket, page.next) else input;
            ListRemains(whole, calls + [input], lines + ProgressLines(page.keys, objectNum),
                        svc, bucket, next, resume, n + 1, fuel - 1, objectNum + |page.keys|, objects + Refs(bucket, page.keys))
  {
    var page := ListPage(svc, input, n).value;
    var next := if resume then NextRequest(bucket, page.next) else input;
    var rest := ListLoop(svc, bucket, input, resume, n, fuel, objectNum, objects);
    var rest' := ListLoop(svc, bucket, next, resume, n + 1, fuel - 1, objectNum + |page.keys|, objects + Refs(bucket, page.keys));
    assert rest.requests == [input] + rest'.requests;
    assert calls + rest.requests == (calls + [input]) + rest'.requests;
    assert rest.lines == ProgressLines(page.keys, objectNum) + rest'.lines;
  }

  /** The keys of the pages that the requests, issued from call number n on, receive. */
  function ConsumedKeys(svc: Service, reqs: seq<ListRequest>, n: nat): seq<string>
    decreases |reqs|
  {
    if reqs == [] then []
    else
      (match ListPage(svc, reqs[0], n) case Served(p) => p.keys case Refused(_) => [])
      + ConsumedKeys(svc, reqs[1..], n + 1)
  }

  lemma RefsAppend(bucket: string, a: seq<string>, b: seq<string>)
    ensures Refs(bucket, a + b) == Refs(bucket, a) + Refs(bucket, b)
  {
    assert forall i :: 0 <= i < |a + b| ==> Refs(bucket, a + b)[i] == (Refs(bucket, a) + Refs(bucket, b))[i];
  }

  lemma ProgressLinesAppend(a: seq<string>, b: seq<string>, from: nat)
    ensures ProgressLines(a + b, from) == ProgressLines(a, from) + ProgressLines(b, from + |a|)
  {
    assert forall i :: 0 <= i < |a + b| ==>
      ProgressLines(a + b, from)[i] == (ProgressLines(a, from) + ProgressLines(b, from + |a|))[i];
  }

  /** Progress count: the loop prints one line per key it receives,
      numbered on from objectNum, in the order the service delivered them. */
  lemma {:induction false} ListLoopPrintsEveryKey(svc: Service, bucket: string, input: ListRequest, resume: bool,
                                                  n: nat, fuel: nat, objectNum: nat, objects: seq<string>)
    ensures var r := ListLoop(svc, bucket, input, resume, n, fuel, objectNum, objects);
            r.lines == ProgressLines(ConsumedKeys(svc, r.requests, n), objectNum)
    decreases fuel
  {
    var r := ListLoop(svc, bucket, input, resume, n, fuel, objectNum, objects);
    if fuel > 0 && ListPage(svc, input, n).Served? {
      var page := ListPage(svc, input, n).value;
      assert ConsumedKeys(svc, r.requests, n) == page.keys + ConsumedKeys(svc, r.requests[1..], n + 1);
      if !page.truncated {
        assert r.requests[1..] == [];
        assert page.keys + [] == page.keys;
      } else {
        var next := if resume then NextRequest(bucket, page.next) else input;
        var objects' := objects + Refs(bucket, page.keys);
        var rest := ListLoop(svc, bucket, next, resume, n + 1, fuel - 1, objectNum + |page.keys|, objects');
        ListLoopPrintsEveryKey(svc, bucket, next, resume, n + 1, fuel - 1, objectNum + |page.keys|, objects');
        assert r.requests[1..] == rest.requests;
        ProgressLinesAppend(page.keys, ConsumedKeys(svc, rest.requests, n + 1), objectNum);
      }
    }
  }

  /** Reference shape and order: on success the loop returns `objects`
      followed by "<bucket>/<key>" for exactly the keys it received, in
      the order the service delivered them. */
  lemma {:induction false} ListLoopFollowsResponses(svc: Service, bucket: string, input: ListRequest, resume: bool,
                                                    n: nat, fuel: nat, objectNum: nat, objects: seq<string>)
    ensures var r := ListLoop(svc, bucket, input, resume, n, fuel, objectNum, objects);
            r.outcome.Ok? ==> r.outcome.value == objects + Refs(bucket, ConsumedKeys(svc, r.requests, n))
    decreases fuel
  {
    var r := ListLoop(svc, bucket, input, resume, n, fuel, objectNum, objects);
    if fuel > 0 && ListPage(svc, input, n).Served? {
      var page := ListPage(svc, input, n).value;
      assert ConsumedKeys(svc, r.requests, n) == page.keys + ConsumedKeys(svc, r.requests[1..], n + 1);
      if !page.truncated {
        assert r.requests[1..] == [];
        assert page.keys + [] == page.keys;
      } else {
        var next := if resume then NextRequest(bucket, page.next) else input;
        var objects' := objects + Refs(bucket, page.keys);
        var rest := ListLoop(svc, bucket, next, resume, n + 1, fuel - 1, objectNum + |page.keys|, objects');
        ListLoopFollowsResponses(svc, bucket, next, resume, n + 1, fuel - 1, objectNum + |page.keys|, objects');
        assert r.requests[1..] == rest.requests;
        RefsAppend(bucket, page.keys, ConsumedKeys(svc, rest.requests, n + 1));
      }
    }
  }

  /** The loop issues at least one call when it may, and never more than
      its bound; it is cut off only after using the whole bound. */
  lemma {:induction false} ListLoopCallBound(svc: Service, bucket: string, input: ListRequest, resume: bool,
                                             n: nat, fuel: nat, objectNum: nat, objects: seq<string>)
    ensures var r := ListLoop(svc, bucket, input, resume, n, fuel, objectNum, objects);
            && |r.requests| <= fuel
            && (r.requests == [] <==> fuel == 0)
            && (r.outcome.Exhausted? ==> |r.requests| == fuel)
    decreases fuel
  {
    if fuel > 0 && Truncated(ListPage(svc, input, n)) {
      var page := ListPage(svc, input, n).value;
      var next := if resume then NextRequest(bucket, page.next) else input;
      var objects' := objects + Refs(bucket, page.keys);
      ListLoopCallBound(svc, bucket, next, resume, n + 1, fuel - 1, objectNum + |page.keys|, objects');
    }
  }

  /** Progress lines and references agree: on success the loop prints one
      line per reference it appends, the k-th numbered objectNum + k and
      naming the key of the k-th appended reference. */
  lemma ListLoopCountsMatch(svc: Service, bucket: string, input: ListRequest, resume: bool,
                            n: nat, fuel: nat, objectNum: nat, objects: seq<string>)
    ensures var r := ListLoop(svc, bucket, input, resume, n, fuel, objectNum, objects);
            r.outcome.Ok? ==>
              && |r.outcome.value| == |objects| + |r.lines|
              && r.outcome.value[..|objects|] == objects
              && forall k :: 0 <= k < |r.lines| ==>
                   r.lines[k].n == objectNum + k && r.outcome.value[|objects| + k] == Ref(bucket, r.lines[k].key)
  {
    ListLoopPrintsEveryKey(svc, bucket, input, resume, n, fuel, objectNum, objects);
    ListLoopFollowsResponses(svc, bucket, input, resume, n, fuel, objectNum, objects);
  }

  /** Every request but the last, issued from call number n on, received a
      truncated page. */
  ghost predicate TruncatedBeforeLast(svc: Service, reqs: seq<ListRequest>, n: nat)
  {
    forall k :: 0 <= k < |reqs| - 1 ==> Truncated(ListPage(svc, reqs[k], n + k))
  }

  /** The loop goes on only after a truncated page. */
  lemma {:induction false} ListLoopContinuesOnlyWhenTruncated(svc: Service, bucket: string, input: ListRequest, resume: bool,
                                                              n: nat, fuel: nat, objectNum: nat, objects: seq<string>)
    ensures TruncatedBeforeLast(svc, ListLoop(svc, bucket, input, resume, n, fuel, objectNum, objects).requests, n)
    decreases fuel
  {
    var r := ListLoop(svc, bucket, input, resume, n, fuel, objectNum, objects);
    if fuel > 0 && Truncated(ListPage(svc, input, n)) {
      var page := ListPage(svc, input, n).value;
      var next := if resume then NextRequest(bucket, page.next) else input;
      var objects' := objects + Refs(bucket, page.keys);
      var rest := ListLoop(svc, bucket, next, resume, n + 1, fuel - 1, objectNum + |page.keys|, objects');
      ListLoopContinuesOnlyWhenTruncated(svc, bucket, next, resume, n + 1, fuel - 1, objectNum + |page.keys|, objects');
      assert r.requests == [input] + rest.requests;
      forall k | 1 <= k < |r.requests| - 1
        ensures Truncated(ListPage(svc, r.requests[k], n + k))
      {
        assert r.requests[k] == rest.requests[k - 1];
        assert Truncated(ListPage(svc, rest.requests[k - 1], n + 1 + (k - 1)));
      }
    }
  }

  /** Stop condition: the loop returns a list only after a final
      (untruncated) page, fails only on a refused call, carrying its cause,
      and is cut off by its bound only while the pages are still truncated. */
  lemma {:induction false} ListLoopStopsOnFinalPage(svc: Service, bucket: string, input: ListRequest, resume: bool,
                                                    n: nat, fuel: nat, objectNum: nat, objects: seq<string>)
    ensures var r := ListLoop(svc, bucket, input, resume, n, fuel, objectNum, objects);
            && (r.outcome.Ok? ==> r.requests != [] && Final(ListPage(svc, Last(r.requests), n + |r.requests| - 1)))
            && (r.outcome.Fail? ==>
                  && r.requests != []
                  && ListPage(svc, Last(r.requests), n + |r.requests| - 1).Refused?
                  && r.outcome.error == UnableToList(ListPage(svc, Last(r.requests), n + |r.requests| - 1).error))
            && (r.outcome.Exhausted? && r.requests != [] ==>
                  Truncated(ListPage(svc, Last(r.requests), n + |r.requests| - 1)))
    decreases fuel
  {
    var r := ListLoop(svc, bucket, input, resume, n, fuel, objectNum, objects);
    if fuel > 0 {
      var reply := ListPage(svc, input, n);
      if !Truncated(reply) {
        assert r.requests == [input] && Last(r.requests) == input;
      } else {
        var page := reply.value;
        var next := if resume then NextRequest(bucket, page.next) else input;
        var objects' := objects + Refs(bucket, page.keys);
        var rest := ListLoop(svc, bucket, next, resume, n + 1, fuel - 1, objectNum + |page.keys|, objects');
        ListLoopStopsOnFinalPage(svc, bucket, next, resume, n + 1, fuel - 1, objectNum + |page.keys|, objects');
        assert r.requests == [input] + rest.requests && r.outcome == rest.outcome;
        if rest.requests != [] {
          assert Last(r.requests) == Last(rest.requests);
          assert n + |r.requests| - 1 == n + 1 + |rest.requests| - 1;
        } else {
          assert Last(r.requests) == input;
        }
      }
    }
  }

  /** Every request asks for `bucket` and carries no continuation token. */
  ghost predicate NoToken(reqs: seq<ListRequest>, bucket: string)
  {
    forall k :: 0 <= k < |reqs| ==> reqs[k] == ListRequest(bucket, None)
  }

  /** The token defect: the loop as written builds its request once, before
      any token is known, and so sends every list call without a
      continuation token. */
  lemma {:induction false} AsWrittenRequestsCarryNoToken(svc: Service, bucket: string,
                                                         n: nat, fuel: nat, objectNum: nat, objects: seq<string>)
    ensures NoToken(ListLoop(svc, bucket, NextRequest(bucket, ""), false, n, fuel, objectNum, objects).requests, bucket)
    decreases fuel
  {
    var input := NextRequest(bucket, "");
    var r := ListLoop(svc, bucket, input, false, n, fuel, objectNum, objects);
    if fuel > 0 && Truncated(ListPage(svc, input, n)) {
      var page := ListPage(svc, input, n).value;
      var objects' := objects + Refs(bucket, page.keys);
      var rest := ListLoop(svc, bucket, input, false, n + 1, fuel - 1, objectNum + |page.keys|, objects');
      AsWrittenRequestsCarryNoToken(svc, bucket, n + 1, fuel - 1, objectNum + |page.keys|, objects');
      assert r.requests == [input] + rest.requests;
      forall k | 1 <= k < |r.requests|
        ensures r.requests[k] == ListRequest(bucket, None)
      {
        assert r.requests[k] == rest.requests[k - 1];
        assert rest.requests[k - 1] == ListRequest(bucket, None);
      }
    }
    assert input == ListRequest(bucket, None);
  }

  /** `keys` repeated m times. */
  function Repeat(keys: seq<string>, m: nat): seq<string>
  {
    if m == 0 then [] else keys + Repeat(keys, m - 1)
  }

  /** Non-termination: when the first page is truncated, the loop as written
      receives that same page on every call the service serves, so it never
      returns; it prints the first page's keys over and over until the
      bound on calls runs out. */
  lemma {:induction false} AsWrittenTruncatedFirstPageExhausts(svc: Service, bucket: string,
                                                               n: nat, fuel: nat, objectNum: nat, objects: seq<string>)
    requires bucket in svc.listings && FirstPage(svc, bucket).truncated
    requires forall k :: n <= k < n + fuel ==> k !in svc.failing
    ensures var r := ListLoop(svc, bucket, NextRequest(bucket, ""), false, n, fuel, objectNum, objects);
            && r.outcome == Exhausted
            && |r.requests| == fuel
            && r.lines == ProgressLines(Repeat(FirstPage(svc, bucket).keys, fuel), objectNum)
    decreases fuel
  {
    if fuel > 0 {
      var input := NextRequest(bucket, "");
      var keys := FirstPage(svc, bucket).keys;
      assert ListPage(svc, input, n) == Served(FirstPage(svc, bucket));
      var objects' := objects + Refs(bucket, keys);
      var r := ListLoop(svc, bucket, input, false, n, fuel, objectNum, objects);
      var rest := ListLoop(svc, bucket, input, false, n + 1, fuel - 1, objectNum + |keys|, objects');
      AsWrittenTruncatedFirstPageExhausts(svc, bucket, n + 1, fuel - 1, objectNum + |keys|, objects');
      assert r.requests == [input] + rest.requests;
      assert r.lines == ProgressLines(keys, objectNum) + rest.lines;
      ProgressLinesAppend(keys, Repeat(keys, fuel - 1), objectNum);
    }
  }

  /** The loop as written returns a list exactly when its first call is
      served with a final first page; the list is then that page's
      references, after a single call. */
  lemma {:induction false} AsWrittenListsOnlyFinalFirstPage(svc: Service, bucket: string,
                                                            n: nat, fuel: nat, objectNum: nat, objects: seq<string>)
    ensures var r := ListLoop(svc, bucket, NextRequest(bucket, ""), false, n, fuel, objectNum, objects);
            && (r.outcome.Ok? <==>
                  fuel > 0 && n !in svc.failing && bucket in svc.listings && !FirstPage(svc, bucket).truncated)
            && (r.outcome.Ok? ==>
                  && r.requests == [ListRequest(bucket, None)]
                  && r.lines == ProgressLines(FirstPage(svc, bucket).keys, objectNum)
                  && r.outcome.value == objects + Refs(bucket, FirstPage(svc, bucket).keys))
    decreases fuel
  {
    var input := NextRequest(bucket, "");
    if fuel > 0 && Truncated(ListPage(svc, input, n)) {
      var page := ListPage(svc, input, n).value;
      var objects' := objects + Refs(bucket, page.keys);
      AsWrittenListsOnlyFinalFirstPage(svc, bucket, n + 1, fuel - 1, objectNum + |page.keys|, objects');
    }
  }

  /** The keys of all pages, in order. */
  function AllKeys(pages: seq<Page>): seq<string>
  {
    if pages == [] then [] else pages[0].keys + AllKeys(pages[1..])
  }

  /** The requests of a complete enumeration: the first without a token,
      each later one with the token of the page before it. */
  function ResumeRequests(bucket: string, pages: seq<Page>): seq<ListRequest>
  {
    seq(|pages|, i requires 0 <= i < |pages| =>
      if i == 0 then ListRequest(bucket, None) else ListRequest(bucket, Some(pages[i - 1].next)))
  }

  /** Request k, issued as call number n + k, is served page k. */
  ghost predicate ServesChain(svc: Service, reqs: seq<ListRequest>, pages: seq<Page>, n: nat)
    decreases |reqs|
  {
    && |reqs| == |pages|
    && (reqs != [] ==>
          && ListPage(svc, reqs[0], n) == Served(pages[0])
          && ServesChain(svc, reqs[1..], pages[1..], n + 1))
  }

  /** Every page but the last is truncated and its token makes the next request. */
  ghost predicate Chained(bucket: string, reqs: seq<ListRequest>, pages: seq<Page>)
    decreases |reqs|
  {
    && |reqs| == |pages|
    && (|reqs| > 1 ==>
          && pages[0].truncated
          && reqs[1] == NextRequest(bucket, pages[0].next)
          && Chained(bucket, reqs[1..], pages[1..]))
  }

  /** The requests of a chain receive the keys of its pages, in order. */
  lemma {:induction false} ChainKeys(svc: Service, reqs: seq<ListRequest>, pages: seq<Page>, n: nat)
    requires ServesChain(svc, reqs, pages, n)
    ensures ConsumedKeys(svc, reqs, n) == AllKeys(pages)
    decreases |reqs|
  {
    if reqs != [] {
      ChainKeys(svc, reqs[1..], pages[1..], n + 1);
    }
  }

  /** The corrected loop follows any chain of pages that ends with a final
      page and fits its bound: it issues exactly the chain's requests and
      ends with a list. */
  lemma {:induction false} ListLoopFollowsChain(svc: Service, bucket: string, reqs: seq<ListRequest>, pages: seq<Page>,
                                                n: nat, fuel: nat, objectNum: nat, objects: seq<string>)
    requires 0 < |reqs| <= fuel
    requires ServesChain(svc, reqs, pages, n) && Chained(bucket, reqs, pages) && !Last(pages).truncated
    ensures var r := ListLoop(svc, bucket, reqs[0], true, n, fuel, objectNum, objects);
            r.requests == reqs && r.outcome.Ok?
    decreases |reqs|
  {
    if |reqs| == 1 {
      assert reqs == [reqs[0]];
    } else {
      var page := pages[0];
      assert Last(pages[1..]) == Last(pages);
      ListLoopFollowsChain(svc, bucket, reqs[1..], pages[1..], n + 1, fuel - 1,
                           objectNum + |page.keys|, objects + Refs(bucket, page.keys));
      assert reqs == [reqs[0]] + reqs[1..];
    }
  }

  /** The requests of a complete enumeration from page i of a well-formed
      listing on, asked for without refusals, are served pages i, i + 1, ... */
  lemma {:induction false} ListingServesFrom(svc: Service, bucket: string, n: nat, i: nat)
    requires bucket in svc.listings && WellFormed(Listing(svc, bucket))
    requires i <= |Listing(svc, bucket)|
    requires forall k :: n <= k < n + |Listing(svc, bucket)| - i ==> k !in svc.failing
    ensures var pages := Listing(svc, bucket);
            ServesChain(svc, ResumeRequests(bucket, pages)[i..], pages[i..], n)
    decreases |Listing(svc, bucket)| - i
  {
    var pages := Listing(svc, bucket);
    var reqs := ResumeRequests(bucket, pages);
    if i < |pages| {
      if i > 0 {
        ResumedPage(svc, bucket, i - 1, n);
      }
      assert reqs[i..][0] == reqs[i] && reqs[i..][1..] == reqs[i + 1..];
      assert pages[i..][0] == pages[i] && pages[i..][1..] == pages[i + 1..];
      ListingServesFrom(svc, bucket, n + 1, i + 1);
    }
  }

  /** From page i of a well-formed listing on, each page but the last is
      truncated and its token makes the next request of the enumeration. */
  lemma {:induction false} ListingChainedFrom(bucket: string, pages: seq<Page>, i: nat)
    requires WellFormed(pages) && i <= |pages|
    ensures Chained(bucket, ResumeRequests(bucket, pages)[i..], pages[i..])
    decreases |pages| - i
  {
    var reqs := ResumeRequests(bucket, pages);
    if i < |pages| {
      assert reqs[i..][1..] == reqs[i + 1..] && pages[i..][1..] == pages[i + 1..];
      if i + 1 < |pages| {
        assert pages[i].next != "";
        assert reqs[i..][1] == NextRequest(bucket, pages[i].next);
      }
      ListingChainedFrom(bucket, pages, i + 1);
    }
  }

  /** The corrected loop, which sends each page's token with the next
      request, enumerates a well-formed listing completely: one call per
      page, each later call carrying the token of the page before it, and
      the references of all keys of all pages in service order. */
  lemma ResumingListsEveryPage(svc: Service, bucket: string, n: nat, fuel: nat)
    requires bucket in svc.listings && WellFormed(Listing(svc, bucket))
    requires |Listing(svc, bucket)| <= fuel
    requires forall k :: n <= k < n + |Listing(svc, bucket)| ==> k !in svc.failing
    ensures var pages := Listing(svc, bucket);
            var r := ListLoop(svc, bucket, NextRequest(bucket, ""), true, n, fuel, 0, []);
            && r.requests == ResumeRequests(bucket, pages)
            && r.lines == ProgressLines(AllKeys(pages), 0)
            && r.outcome == Ok(Refs(bucket, AllKeys(pages)))
  {
    var pages := Listing(svc, bucket);
    var reqs := ResumeRequests(bucket, pages);
    ListingServesFrom(svc, bucket, n, 0);
    ListingChainedFrom(bucket, pages, 0);
    assert reqs[0..] == reqs && pages[0..] == pages;
    assert reqs[0] == NextRequest(bucket, "");
    ListLoopFollowsChain(svc, bucket, reqs, pages, n, fuel, 0, []);
    ChainKeys(svc, reqs, pages, n);
    ListLoopPrintsEveryKey(svc, bucket, reqs[0], true, n, fuel, 0, []);
    ListLoopFollowsResponses(svc, bucket, reqs[0], true, n, fuel, 0, []);
    assert [] + Refs(bucket, AllKeys(pages)) == Refs(bucket, AllKeys(pages));
  }

  // ---------------------------------------------------------------------
  // migrate

  datatype MigrateRun = MigrateRun(copies: seq<CopyRequest>, status: Option<Error>)

  /** The copy loop of migrate, started as call number n; status None is
      migrate's nil error. */
  function Migration(svc: Service, refs: seq<string>, dest: string, n: nat): MigrateRun
    decreases |refs|
  {
    if refs == [] then MigrateRun([], None)
    else
      var req := CopyRequest(dest, refs[0], refs[0]);
      match CopyObject(svc, req, n)
      case Refused(e) => MigrateRun([req], Some(UnableToCopy(e)))
      case Served(_) =>
        var rest := Migration(svc, refs[1..], dest, n + 1);
        MigrateRun([req] + rest.copies, rest.status)
  }

  /** Copy shape and order: migrate issues copies of a prefix of `refs`, in
      order, each into `dest` with the reference as both copy source and
      key; all of `refs` when it succeeds, and up to and including the
      first refused copy, whose cause it returns, when it fails. */
  lemma {:induction false} MigrationCopiesInOrder(svc: Service, refs: seq<string>, dest: string, n: nat)
    ensures var m := Migration(svc, refs, dest, n);
            && |m.copies| <= |refs|
            && m.copies == CopyRequests(dest, refs[..|m.copies|])
            && (forall k :: 0 <= k < |m.copies| - 1 ==> CopyObject(svc, m.copies[k], n + k).Served?)
            && (m.status.None? ==>
                  |m.copies| == |refs| && forall k :: 0 <= k < |m.copies| ==> CopyObject(svc, m.copies[k], n + k).Served?)
            && (m.status.Some? ==>
                  && m.copies != []
                  && CopyObject(svc, Last(m.copies), n + |m.copies| - 1).Refused?
                  && m.status.value == UnableToCopy(CopyObject(svc, Last(m.copies), n + |m.copies| - 1).error))
    decreases |refs|
  {
    var m := Migration(svc, refs, dest, n);
    if refs != [] {
      var req := CopyRequest(dest, refs[0], refs[0]);
      if CopyObject(svc, req, n).Served? {
        var rest := Migration(svc, refs[1..], dest, n + 1);
        MigrationCopiesInOrder(svc, refs[1..], dest, n + 1);
        assert m.copies == [req] + rest.copies;
        assert refs[..|m.copies|] == [refs[0]] + refs[1..][..|rest.copies|];
        forall k | 1 <= k < |m.copies|
          ensures m.copies[k] == rest.copies[k - 1]
        {
        }
        if rest.copies != [] {
          assert Last(m.copies) == Last(rest.copies);
        }
      }
    }
  }

  /** First copy error aborts: when the copy of refs[j] is the first one
      refused, migrate issues exactly the copies of refs[..j + 1] and
      returns that refusal; nothing of refs[j + 1..] is copied. */
  lemma MigrationAbortsAtFirstFailure(svc: Service, refs: seq<string>, dest: string, n: nat, j: nat)
    requires j < |refs|
    requires forall k :: 0 <= k < j ==> CopyObject(svc, CopyRequest(dest, refs[k], refs[k]), n + k).Served?
    requires CopyObject(svc, CopyRequest(dest, refs[j], refs[j]), n + j).Refused?
    ensures var m := Migration(svc, refs, dest, n);
            && m.copies == CopyRequests(dest, refs[..j + 1])
            && m.status == Some(UnableToCopy(CopyObject(svc, CopyRequest(dest, refs[j], refs[j]), n + j).error))
  {
    var m := Migration(svc, refs, dest, n);
    MigrationCopiesInOrder(svc, refs, dest, n);
    assert forall k :: 0 <= k < |m.copies| ==> m.copies[k] == CopyRequest(dest, refs[k], refs[k]);
  }

  /** migrate succeeds exactly when every one of its copies is served. */
  lemma MigrationSucceedsIffAllCopiesServed(svc: Service, refs: seq<string>, dest: string, n: nat)
    ensures Migration(svc, refs, dest, n).status.None? <==>
            forall k :: 0 <= k < |refs| ==> CopyObject(svc, CopyRequest(dest, refs[k], refs[k]), n + k).Served?
  {
    var m := Migration(svc, refs, dest, n);
    MigrationCopiesInOrder(svc, refs, dest, n);
    if m.status.None? {
      forall k | 0 <= k < |refs|
        ensures CopyObject(svc, CopyRequest(dest, refs[k], refs[k]), n + k).Served?
      {
        assert m.copies[k] == CopyRequest(dest, refs[k], refs[k]);
      }
    } else {
      var c := |m.copies|;
      assert m.copies[c - 1] == CopyRequest(dest, refs[c - 1], refs[c - 1]);
    }
  }

  // ---------------------------------------------------------------------
  // Sync

  /** What one bucket pair contributes to a run: its list calls, the
      progress lines they print and its copy calls. */
  datatype PairTrace = PairTrace(lists: seq<ListRequest>, lines: seq<ProgressLine>, copies: seq<CopyRequest>)

  datatype SyncRun = SyncRun(pairs: seq<PairTrace>, outcome: Outcome<()>)

  datatype PairRun = PairRun(trace: PairTrace, outcome: Outcome<()>)

  /** One iteration of Sync's loop for pair `loc`, started as call number n:
      listObjects on the source, then, if it returned a list, migrate into
      the destination. Outcome Ok means the loop goes on to the next pair. */
  function RunPair(svc: Service, loc: Locations, n: nat, fuel: nat, resume: bool): PairRun
  {
    PairAfter(svc, loc, n, ListLoop(svc, loc.source, NextRequest(loc.source, ""), resume, n, fuel, 0, []))
  }

  /** The rest of a Sync iteration once listObjects on the source, started
      as call number n, has run as `l`. */
  function PairAfter(svc: Service, loc: Locations, n: nat, l: ListRun): PairRun
  {
    match l.outcome
    case Exhausted => PairRun(PairTrace(l.requests, l.lines, []), Exhausted)
    case Fail(e) => PairRun(PairTrace(l.requests, l.lines, []), Fail(SyncListing(e)))
    case Ok(objects) =>
      var m := Migration(svc, objects, loc.dest, n + |l.requests|);
      var pair := PairTrace(l.requests, l.lines, m.copies);
      match m.status
      case Some(e) => PairRun(pair, Fail(SyncMigrating(e)))
      case None => PairRun(pair, Ok(()))
  }

  /** The number of calls a pair's trace holds. */
  function CallCount(p: PairTrace): nat
  {
    |p.lists| + |p.copies|
  }

  /** Sync over `locations`, started as call number n, each listObjects
      allowed `fuel` list calls. */
  function Synchronization(svc: Service, locations: seq<Locations>, n: nat, fuel: nat, resume: bool): SyncRun
    decreases |locations|
  {
    if locations == [] then SyncRun([], Ok(()))
    else
      var first := RunPair(svc, locations[0], n, fuel, resume);
      if !first.outcome.Ok? then SyncRun([first.trace], first.outcome)
      else
        var rest := Synchronization(svc, locations[1..], n + CallCount(first.trace), fuel, resume);
        SyncRun([first.trace] + rest.pairs, rest.outcome)
  }

  /** The run still to do, while Sync has finished the pairs `done`:
      `whole` is those followed by Sync over the remaining locations. */
  ghost predicate SyncRemains(whole: SyncRun, done: seq<PairTrace>, svc: Service,
                              locations: seq<Locations>, n: nat, fuel: nat, resume: bool)
  {
    var rest := Synchronization(svc, locations, n, fuel, resume);
    whole == SyncRun(done + rest.pairs, rest.outcome)
  }

  /** A pair that does not end with Ok ends the run. */
  lemma SyncPairStops(whole: SyncRun, done: seq<PairTrace>, svc: Service,
                      locations: seq<Locations>, n: nat, fuel: nat, resume: bool)
    requires SyncRemains(whole, done, svc, locations, n, fuel, resume)
    requires locations != [] && !RunPair(svc, locations[0], n, fuel, resume).outcome.Ok?
    ensures var p := RunPair(svc, locations[0], n, fuel, resume);
            whole == SyncRun(done + [p.trace], p.outcome)
  {
  }

  /** After a pair that ends with Ok, Sync goes on with the next location,
      as call number m, once the pair's calls are done. */
  lemma SyncPairContinues(whole: SyncRun, done: seq<PairTrace>, svc: Service,
                          locations: seq<Locations>, n: nat, fuel: nat, resume: bool,
                          pair: PairTrace, rest: seq<Locations>, m: nat)
    requires SyncRemains(whole, done, svc, locations, n, fuel, resume)
    requires locations != [] && RunPair(svc, locations[0], n, fuel, resume).outcome.Ok?
    requires pair == RunPair(svc, locations[0], n, fuel, resume).trace
    requires rest == locations[1..] && m == n + CallCount(pair)
    ensures SyncRemains(whole, done + [pair], svc, rest, m, fuel, resume)
  {
    var after := Synchronization(svc, rest, m, fuel, resume);
    assert done + ([pair] + after.pairs) == (done + [pair]) + after.pairs;
  }

  /** Sync over no location leaves the run as it is. */
  lemma SyncDone(whole: SyncRun, done: seq<PairTrace>, svc: Service, n: nat, fuel: nat, resume: bool)
    requires SyncRemains(whole, done, svc, [], n, fuel, resume)
    ensures whole == SyncRun(done, Ok(()))
  {
    assert done + [] == done;
  }

  /** A pair's run in terms of its two halves: the listing of the source and,
      when that returns a list, the migration into the destination. */
  lemma RunPairParts(svc: Service, loc: Locations, n: nat, fuel: nat, resume: bool)
    ensures var l := ListLoop(svc, loc.source, NextRequest(loc.source, ""), resume, n, fuel, 0, []);
            var p := RunPair(svc, loc, n, fuel, resume);
            && p.trace.lists == l.requests && p.trace.lines == l.lines
            && (l.outcome.Fail? ==> p.trace.copies == [] && p.outcome == Fail(SyncListing(l.outcome.error)))
            && (l.outcome.Exhausted? ==> p.trace.copies == [] && p.outcome == Exhausted)
            && (l.outcome.Ok? ==>
                  var m := Migration(svc, l.outcome.value, loc.dest, n + |l.requests|);
                  && p.trace.copies == m.copies
                  && p.outcome == (if m.status.Some? then Fail(SyncMigrating(m.status.value)) else Ok(())))
  {
  }

  /** The calls of one pair: all its list calls, then all its copy calls. */
  function PairCalls(p: PairTrace): seq<Call>
  {
    ListCalls(p.lists) + CopyCalls(p.copies)
  }

  /** The calls of a run: the pairs' calls, pair after pair. */
  function Calls(pairs: seq<PairTrace>): seq<Call>
  {
    if pairs == [] then [] else PairCalls(pairs[0]) + Calls(pairs[1..])
  }

  function Lines(pairs: seq<PairTrace>): seq<ProgressLine>
  {
    if pairs == [] then [] else pairs[0].lines + Lines(pairs[1..])
  }

  lemma {:induction false} CallsAppend(a: seq<PairTrace>, b: seq<PairTrace>)
    ensures Calls(a + b) == Calls(a) + Calls(b)
    decreases |a|
  {
    if a == [] {
      assert a + b == b;
    } else {
      assert (a + b)[0] == a[0];
      assert (a + b)[1..] == a[1..] + b;
      CallsAppend(a[1..], b);
      assert Calls(a + b) == PairCalls(a[0]) + Calls(a[1..] + b);
    }
  }

  lemma {:induction false} LinesAppend(a: seq<PairTrace>, b: seq<PairTrace>)
    ensures Lines(a + b) == Lines(a) + Lines(b)
    decreases |a|
  {
    if a == [] {
      assert a + b == b;
    } else {
      assert (a + b)[0] == a[0];
      assert (a + b)[1..] == a[1..] + b;
      LinesAppend(a[1..], b);
      assert Lines(a + b) == a[0].lines + Lines(a[1..] + b);
    }
  }

  /** A pair's trace as the driver may leave it: its list calls all ask for
      the source bucket without a token, and any copies it issued follow a
      single served, final first page and copy a prefix of that page's
      references, in order, into the destination. */
  ghost predicate PairShape(svc: Service, loc: Locations, p: PairTrace)
  {
    && NoToken(p.lists, loc.source)
    && (p.copies != [] ==>
          && loc.source in svc.listings
          && !FirstPage(svc, loc.source).truncated
          && p.lists == [ListRequest(loc.source, None)]
          && |p.copies| <= |FirstPage(svc, loc.source).keys|
          && p.copies == CopyRequests(loc.dest, Refs(loc.source, FirstPage(svc, loc.source).keys[..|p.copies|])))
  }

  /** A pair the driver finished: one list call answered by a final first
      page, one progress line and one copy per key of that page, in order,
      each copy into the destination under the key "<source>/<key>". */
  ghost predicate PairComplete(svc: Service, loc: Locations, p: PairTrace)
  {
    && loc.source in svc.listings
    && !FirstPage(svc, loc.source).truncated
    && p.lists == [ListRequest(loc.source, None)]
    && p.lines == ProgressLines(FirstPage(svc, loc.source).keys, 0)
    && p.copies == CopyRequests(loc.dest, Refs(loc.source, FirstPage(svc, loc.source).keys))
  }

  /** For one pair: every list call precedes every copy call, the list
      calls ask for the source without a token, and the copies copy a
      prefix of the source's references. */
  lemma RunPairShape(svc: Service, loc: Locations, n: nat, fuel: nat)
    ensures PairShape(svc, loc, RunPair(svc, loc, n, fuel, false).trace)
  {
    var l := ListLoop(svc, loc.source, NextRequest(loc.source, ""), false, n, fuel, 0, []);
    AsWrittenRequestsCarryNoToken(svc, loc.source, n, fuel, 0, []);
    AsWrittenListsOnlyFinalFirstPage(svc, loc.source, n, fuel, 0, []);
    if l.outcome.Ok? {
      var keys := FirstPage(svc, loc.source).keys;
      var objects := l.outcome.value;
      assert objects == Refs(loc.source, keys);
      var m := Migration(svc, objects, loc.dest, n + |l.requests|);
      MigrationCopiesInOrder(svc, objects, loc.dest, n + |l.requests|);
      assert Refs(loc.source, keys)[..|m.copies|] == Refs(loc.source, keys[..|m.copies|]);
    }
  }

  /** For one pair: a pair that lets Sync go on is complete. */
  lemma RunPairComplete(svc: Service, loc: Locations, n: nat, fuel: nat)
    ensures var p := RunPair(svc, loc, n, fuel, false);
            p.outcome.Ok? ==> PairComplete(svc, loc, p.trace)
  {
    var l := ListLoop(svc, loc.source, NextRequest(loc.source, ""), false, n, fuel, 0, []);
    if l.outcome.Ok? {
      AsWrittenListsOnlyFinalFirstPage(svc, loc.source, n, fuel, 0, []);
      var objects := l.outcome.value;
      var m := Migration(svc, objects, loc.dest, n + |l.requests|);
      if m.status.None? {
        MigrationCopiesInOrder(svc, objects, loc.dest, n + |l.requests|);
        assert objects[..|m.copies|] == objects;
      }
    }
  }

  /** Pair trace i has the shape of a pair run for location i. */
  ghost predicate AllShaped(svc: Service, locations: seq<Locations>, pairs: seq<PairTrace>)
  {
    forall i :: 0 <= i < |pairs| && i < |locations| ==> PairShape(svc, locations[i], pairs[i])
  }

  /** Every pair trace before the last, and the last too when `all`, is complete. */
  ghost predicate CompleteBefore(svc: Service, locations: seq<Locations>, pairs: seq<PairTrace>, all: bool)
  {
    forall i :: 0 <= i < |pairs| && i < |locations| && (i < |pairs| - 1 || all) ==>
      PairComplete(svc, locations[i], pairs[i])
  }

  /** Sync covers a prefix of `locations`, one pair trace per location, at
      least one when there is a location and all of them when it succeeds;
      with no locations nothing is called. */
  lemma {:induction false} SyncCoversPrefix(svc: Service, locations: seq<Locations>, n: nat, fuel: nat, resume: bool)
    ensures var s := Synchronization(svc, locations, n, fuel, resume);
            && |s.pairs| <= |locations|
            && (locations == [] ==> s.pairs == [] && s.outcome == Ok(()))
            && (locations != [] ==> s.pairs != [])
            && (s.outcome.Ok? ==> |s.pairs| == |locations|)
    decreases |locations|
  {
    if locations != [] {
      var first := RunPair(svc, locations[0], n, fuel, resume);
      if first.outcome.Ok? {
        SyncCoversPrefix(svc, locations[1..], n + CallCount(first.trace), fuel, resume);
      }
    }
  }

  /** Sync ordering: the pair traces follow `locations` in declared order,
      each pair's list calls before its copy calls. */
  lemma {:induction false} SyncPairsInOrder(svc: Service, locations: seq<Locations>, n: nat, fuel: nat)
    ensures AllShaped(svc, locations, Synchronization(svc, locations, n, fuel, false).pairs)
    decreases |locations|
  {
    var s := Synchronization(svc, locations, n, fuel, false);
    if locations != [] {
      var first := RunPair(svc, locations[0], n, fuel, false);
      RunPairShape(svc, locations[0], n, fuel);
      if first.outcome.Ok? {
        var n' := n + CallCount(first.trace);
        var rest := Synchronization(svc, locations[1..], n', fuel, false);
        SyncPairsInOrder(svc, locations[1..], n', fuel);
        assert s.pairs == [first.trace] + rest.pairs;
        forall i | 1 <= i < |s.pairs| && i < |locations|
          ensures PairShape(svc, locations[i], s.pairs[i])
        {
          assert s.pairs[i] == rest.pairs[i - 1] && locations[i] == locations[1..][i - 1];
        }
      }
    }
  }

  /** Pair i finishes before pair i + 1 starts: every pair but the last
      (all of them when Sync succeeds) is complete. */
  lemma {:induction false} SyncPairsComplete(svc: Service, locations: seq<Locations>, n: nat, fuel: nat)
    ensures var s := Synchronization(svc, locations, n, fuel, false);
            CompleteBefore(svc, locations, s.pairs, s.outcome.Ok?)
    decreases |locations|
  {
    var s := Synchronization(svc, locations, n, fuel, false);
    if locations != [] {
      var first := RunPair(svc, locations[0], n, fuel, false);
      RunPairComplete(svc, locations[0], n, fuel);
      if first.outcome.Ok? {
        var n' := n + CallCount(first.trace);
        var rest := Synchronization(svc, locations[1..], n', fuel, false);
        SyncPairsComplete(svc, locations[1..], n', fuel);
        assert s.pairs == [first.trace] + rest.pairs && s.outcome == rest.outcome;
        forall i | 1 <= i < |s.pairs| && i < |locations| && (i < |s.pairs| - 1 || s.outcome.Ok?)
          ensures PairComplete(svc, locations[i], s.pairs[i])
        {
          assert s.pairs[i] == rest.pairs[i - 1] && locations[i] == locations[1..][i - 1];
        }
      }
    }
  }

  /** All calls served, the first as call number n. */
  ghost predicate ServedFrom(svc: Service, calls: seq<Call>, n: nat)
  {
    forall k :: 0 <= k < |calls| ==> Rejection(svc, calls[k], n + k).None?
  }

  /** The last call refused, every call before it served. */
  ghost predicate RefusedLast(svc: Service, calls: seq<Call>, n: nat)
  {
    && calls != []
    && ServedFrom(svc, calls[..|calls| - 1], n)
    && Rejection(svc, Last(calls), n + |calls| - 1).Some?
  }

  lemma ServedAppend(svc: Service, a: seq<Call>, b: seq<Call>, n: nat)
    requires ServedFrom(svc, a, n) && ServedFrom(svc, b, n + |a|)
    ensures ServedFrom(svc, a + b, n)
  {
    forall k | |a| <= k < |a + b|
      ensures Rejection(svc, (a + b)[k], n + k).None?
    {
      assert (a + b)[k] == b[k - |a|];
    }
  }

  lemma RefusedAppend(svc: Service, a: seq<Call>, b: seq<Call>, n: nat)
    requires ServedFrom(svc, a, n) && RefusedLast(svc, b, n + |a|)
    ensures RefusedLast(svc, a + b, n)
  {
    assert (a + b)[..|a + b| - 1] == a + b[..|b| - 1];
    ServedAppend(svc, a, b[..|b| - 1], n);
    assert Last(a + b) == Last(b);
  }

  /** A listing that fails ends with its one refused call. */
  lemma ListRunRefusedLast(svc: Service, bucket: string, input: ListRequest, resume: bool,
                           n: nat, fuel: nat, objectNum: nat, objects: seq<string>)
    ensures var r := ListLoop(svc, bucket, input, resume, n, fuel, objectNum, objects);
            r.outcome.Fail? ==> RefusedLast(svc, ListCalls(r.requests), n)
  {
    var r := ListLoop(svc, bucket, input, resume, n, fuel, objectNum, objects);
    if r.outcome.Fail? {
      ListLoopContinuesOnlyWhenTruncated(svc, bucket, input, resume, n, fuel, objectNum, objects);
      ListLoopStopsOnFinalPage(svc, bucket, input, resume, n, fuel, objectNum, objects);
      var calls := ListCalls(r.requests);
      assert forall k :: 0 <= k < |calls| ==> calls[k] == List(r.requests[k]);
      assert calls[..|calls| - 1] == ListCalls(r.requests[..|r.requests| - 1]);
    }
  }

  /** A listing that does not fail had every call served. */
  lemma ListRunServed(svc: Service, bucket: string, input: ListRequest, resume: bool,
                      n: nat, fuel: nat, objectNum: nat, objects: seq<string>)
    ensures var r := ListLoop(svc, bucket, input, resume, n, fuel, objectNum, objects);
            !r.outcome.Fail? ==> ServedFrom(svc, ListCalls(r.requests), n)
  {
    var r := ListLoop(svc, bucket, input, resume, n, fuel, objectNum, objects);
    if !r.outcome.Fail? {
      ListLoopContinuesOnlyWhenTruncated(svc, bucket, input, resume, n, fuel, objectNum, objects);
      ListLoopStopsOnFinalPage(svc, bucket, input, resume, n, fuel, objectNum, objects);
      var calls := ListCalls(r.requests);
      assert forall k :: 0 <= k < |calls| ==> calls[k] == List(r.requests[k]);
    }
  }

  lemma MigrationRejections(svc: Service, refs: seq<string>, dest: string, n: nat)
    ensures var m := Migration(svc, refs, dest, n);
            && (m.status.Some? ==> RefusedLast(svc, CopyCalls(m.copies), n))
            && (m.status.None? ==> ServedFrom(svc, CopyCalls(m.copies), n))
  {
    var m := Migration(svc, refs, dest, n);
    MigrationCopiesInOrder(svc, refs, dest, n);
    var calls := CopyCalls(m.copies);
    assert forall k :: 0 <= k < |calls| ==> calls[k] == Copy(m.copies[k]);
    if m.status.Some? {
      assert calls[..|calls| - 1] == CopyCalls(m.copies[..|m.copies| - 1]);
    }
  }

  /** After a listing that ended with its one refused call, or had every
      call served, a failed pair ended with its one refused call. */
  lemma PairAfterRefusedLast(svc: Service, loc: Locations, n: nat, l: ListRun)
    requires l.outcome.Fail? ==> RefusedLast(svc, ListCalls(l.requests), n)
    requires !l.outcome.Fail? ==> ServedFrom(svc, ListCalls(l.requests), n)
    ensures var p := PairAfter(svc, loc, n, l);
            p.outcome.Fail? ==> RefusedLast(svc, PairCalls(p.trace), n)
  {
    var lc := ListCalls(l.requests);
    if l.outcome.Ok? {
      var m := Migration(svc, l.outcome.value, loc.dest, n + |l.requests|);
      MigrationRejections(svc, l.outcome.value, loc.dest, n + |l.requests|);
      if m.status.Some? {
        RefusedAppend(svc, lc, CopyCalls(m.copies), n);
      }
    } else if l.outcome.Fail? {
      assert lc + CopyCalls([]) == lc;
    }
  }

  /** After a listing that had every call served, a pair that does not fail
      had every call served. */
  lemma PairAfterServed(svc: Service, loc: Locations, n: nat, l: ListRun)
    requires !l.outcome.Fail? ==> ServedFrom(svc, ListCalls(l.requests), n)
    ensures var p := PairAfter(svc, loc, n, l);
            !p.outcome.Fail? ==> ServedFrom(svc, PairCalls(p.trace), n)
  {
    var lc := ListCalls(l.requests);
    if l.outcome.Ok? {
      var m := Migration(svc, l.outcome.value, loc.dest, n + |l.requests|);
      MigrationRejections(svc, l.outcome.value, loc.dest, n + |l.requests|);
      if m.status.None? {
        ServedAppend(svc, lc, CopyCalls(m.copies), n);
      }
    } else if l.outcome.Exhausted? {
      assert lc + CopyCalls([]) == lc;
    }
  }

  /** For one pair: when it fails, its last call was refused and every
      call before that one was served. */
  lemma RunPairRefusedLast(svc: Service, loc: Locations, n: nat, fuel: nat, resume: bool)
    ensures var p := RunPair(svc, loc, n, fuel, resume);
            p.outcome.Fail? ==> RefusedLast(svc, PairCalls(p.trace), n)
  {
    var input := NextRequest(loc.source, "");
    ListRunRefusedLast(svc, loc.source, input, resume, n, fuel, 0, []);
    ListRunServed(svc, loc.source, input, resume, n, fuel, 0, []);
    PairAfterRefusedLast(svc, loc, n, ListLoop(svc, loc.source, input, resume, n, fuel, 0, []));
  }

  /** For one pair: when it does not fail, every call it issued was served. */
  lemma RunPairServed(svc: Service, loc: Locations, n: nat, fuel: nat, resume: bool)
    ensures var p := RunPair(svc, loc, n, fuel, resume);
            !p.outcome.Fail? ==> ServedFrom(svc, PairCalls(p.trace), n)
  {
    var input := NextRequest(loc.source, "");
    ListRunServed(svc, loc.source, input, resume, n, fuel, 0, []);
    PairAfterServed(svc, loc, n, ListLoop(svc, loc.source, input, resume, n, fuel, 0, []));
  }

  /** First failure aborts the run: when Sync fails, the last call it issued
      was refused and every call before that one was served, so no list,
      copy or pair follows a refused call. */
  lemma {:induction false} SyncAbortsAtFirstFailure(svc: Service, locations: seq<Locations>, n: nat, fuel: nat, resume: bool)
    ensures var s := Synchronization(svc, locations, n, fuel, resume);
            s.outcome.Fail? ==> RefusedLast(svc, Calls(s.pairs), n)
    decreases |locations|
  {
    var s := Synchronization(svc, locations, n, fuel, resume);
    if locations != [] {
      var first := RunPair(svc, locations[0], n, fuel, resume);
      var pc := PairCalls(first.trace);
      if first.outcome.Ok? {
        var n' := n + CallCount(first.trace);
        var rest := Synchronization(svc, locations[1..], n', fuel, resume);
        if rest.outcome.Fail? {
          RunPairServed(svc, locations[0], n, fuel, resume);
          SyncAbortsAtFirstFailure(svc, locations[1..], n', fuel, resume);
          assert s.pairs == [first.trace] + rest.pairs;
          assert Calls(s.pairs) == pc + Calls(rest.pairs);
          RefusedAppend(svc, pc, Calls(rest.pairs), n);
        }
      } else if first.outcome.Fail? {
        RunPairRefusedLast(svc, locations[0], n, fuel, resume);
        assert Calls(s.pairs) == pc + [];
        assert pc + [] == pc;
      }
    }
  }

  /** When Sync does not fail, every call it issued was served. */
  lemma {:induction false} SyncServesAll(svc: Service, locations: seq<Locations>, n: nat, fuel: nat, resume: bool)
    ensures var s := Synchronization(svc, locations, n, fuel, resume);
            !s.outcome.Fail? ==> ServedFrom(svc, Calls(s.pairs), n)
    decreases |locations|
  {
    var s := Synchronization(svc, locations, n, fuel, resume);
    if locations != [] {
      var first := RunPair(svc, locations[0], n, fuel, resume);
      RunPairServed(svc, locations[0], n, fuel, resume);
      var pc := PairCalls(first.trace);
      if first.outcome.Ok? {
        var n' := n + CallCount(first.trace);
        var rest := Synchronization(svc, locations[1..], n', fuel, resume);
        SyncServesAll(svc, locations[1..], n', fuel, resume);
        assert s.pairs == [first.trace] + rest.pairs;
        assert Calls(s.pairs) == pc + Calls(rest.pairs);
        if !rest.outcome.Fail? {
          ServedAppend(svc, pc, Calls(rest.pairs), n);
        }
      } else if first.outcome.Exhausted? {
        assert Calls(s.pairs) == pc + [];
        assert pc + [] == pc;
      }
    }
  }

  /** Empty source, for one pair: when its single list call is served an
      empty, final first page, the pair issues that one call, prints nothing,
      copies nothing and lets Sync go on to the next pair. */
  lemma EmptySourcePairGoesOn(svc: Service, loc: Locations, n: nat, fuel: nat)
    requires fuel > 0 && n !in svc.failing && loc.source in svc.listings
    requires FirstPage(svc, loc.source).keys == [] && !FirstPage(svc, loc.source).truncated
    ensures RunPair(svc, loc, n, fuel, false) == PairRun(PairTrace([ListRequest(loc.source, None)], [], []), Ok(()))
  {
    AsWrittenListsOnlyFinalFirstPage(svc, loc.source, n, fuel, 0, []);
  }

  /** Empty source, within a run: the pair trace of a location whose source
      lists as one empty, final page holds no copy, and once Sync has gone
      past that pair, its trace is the single list call. */
  lemma EmptySourceCopiesNothing(svc: Service, locations: seq<Locations>, n: nat, fuel: nat, i: nat)
    requires i < |locations| && locations[i].source in svc.listings
    requires FirstPage(svc, locations[i].source).keys == [] && !FirstPage(svc, locations[i].source).truncated
    ensures var s := Synchronization(svc, locations, n, fuel, false);
            && (i < |s.pairs| ==> s.pairs[i].copies == [])
            && (i < |s.pairs| - 1 || (i < |s.pairs| && s.outcome.Ok?) ==>
                  s.pairs[i] == PairTrace([ListRequest(locations[i].source, None)], [], []))
  {
    SyncCoversPrefix(svc, locations, n, fuel, false);
    SyncPairsInOrder(svc, locations, n, fuel);
    SyncPairsComplete(svc, locations, n, fuel);
    var s := Synchronization(svc, locations, n, fuel, false);
    if i < |s.pairs| {
      assert PairShape(svc, locations[i], s.pairs[i]);
    }
    if i < |s.pairs| - 1 || (i < |s.pairs| && s.outcome.Ok?) {
      assert PairComplete(svc, locations[i], s.pairs[i]);
    }
  }

  // ---------------------------------------------------------------------
  // Sync with the corrected listing

  /** The bucket pairs this property is about: a well-formed source listing
      that fits the bound on list calls, and an existing destination. */
  ghost predicate Replicable(svc: Service, loc: Locations, fuel: nat)
  {
    && loc.source in svc.listings && WellFormed(Listing(svc, loc.source))
    && |Listing(svc, loc.source)| <= fuel
    && loc.dest in svc.listings
  }

  /** A pair replicated completely: one list call per page of the source
      (each later one resuming from the page before), one progress line per
      key, and one copy per key of every page, in service order. */
  ghost predicate Replicated(svc: Service, loc: Locations, p: PairTrace)
  {
    && loc.source in svc.listings
    && var pages := Listing(svc, loc.source);
       var keys := AllKeys(pages);
       && p.lists == ResumeRequests(loc.source, pages)
       && p.lines == ProgressLines(keys, 0)
       && p.copies == CopyRequests(loc.dest, Refs(loc.source, keys))
  }

  /** With the corrected listing and a service that refuses nothing, a pair
      is replicated completely and lets Sync go on. */
  lemma ResumingPairReplicates(svc: Service, loc: Locations, n: nat, fuel: nat)
    requires svc.failing == {} && Replicable(svc, loc, fuel)
    ensures var p := RunPair(svc, loc, n, fuel, true);
            p.outcome == Ok(()) && Replicated(svc, loc, p.trace)
  {
    var pages := Listing(svc, loc.source);
    var refs := Refs(loc.source, AllKeys(pages));
    ResumingListsEveryPage(svc, loc.source, n, fuel);
    var n' := n + |ResumeRequests(loc.source, pages)|;
    MigrationSucceedsIffAllCopiesServed(svc, refs, loc.dest, n');
    MigrationCopiesInOrder(svc, refs, loc.dest, n');
    assert refs[..|refs|] == refs;
  }

  /** Pair trace i replicates location i completely, for every location. */
  ghost predicate AllReplicated(svc: Service, locations: seq<Locations>, pairs: seq<PairTrace>)
  {
    && |pairs| == |locations|
    && forall i :: 0 <= i < |pairs| ==> Replicated(svc, locations[i], pairs[i])
  }

  /** The evidently intended Sync: with the corrected listing, a service that
      refuses nothing and well-formed buckets, Sync succeeds and replicates
      every pair completely, in declared order. */
  lemma {:induction false} ResumingSyncReplicatesEverything(svc: Service, locations: seq<Locations>, n: nat, fuel: nat)
    requires svc.failing == {}
    requires forall i :: 0 <= i < |locations| ==> Replicable(svc, locations[i], fuel)
    ensures var s := Synchronization(svc, locations, n, fuel, true);
            s.outcome == Ok(()) && AllReplicated(svc, locations, s.pairs)
    decreases |locations|
  {
    var s := Synchronization(svc, locations, n, fuel, true);
    if locations != [] {
      var first := RunPair(svc, locations[0], n, fuel, true);
      ResumingPairReplicates(svc, locations[0], n, fuel);
      var n' := n + CallCount(first.trace);
      var rest := Synchronization(svc, locations[1..], n', fuel, true);
      forall i | 0 <= i < |locations[1..]|
        ensures Replicable(svc, locations[1..][i], fuel)
      {
        assert locations[1..][i] == locations[i + 1];
      }
      ResumingSyncReplicatesEverything(svc, locations[1..], n', fuel);
      assert s.pairs == [first.trace] + rest.pairs;
      forall i | 1 <= i < |s.pairs|
        ensures Replicated(svc, locations[i], s.pairs[i])
      {
        assert s.pairs[i] == rest.pairs[i - 1] && locations[i] == locations[1..][i - 1];
      }
    }
  }

  // ---------------------------------------------------------------------
  // A concrete case: a source bucket of two pages.

  /** Bucket "src" lists keys a and b on a truncated first page and key c
      on a final second page; nothing is refused. */
  function TwoPageService(): Service
  {
    Service(map["src" := [Page(["a", "b"], true, "T"), Page(["c"], false, "")], "dst" := []], {})
  }

  /** The loop as written never lists the two-page bucket, however many
      calls it is allowed, while the corrected loop lists its three objects
      with two calls. */
  lemma TwoPageBucket(fuel: nat)
    ensures ListLoop(TwoPageService(), "src", NextRequest("src", ""), false, 0, fuel, 0, []).outcome == Exhausted
    ensures fuel >= 2 ==>
      var r := ListLoop(TwoPageService(), "src", NextRequest("src", ""), true, 0, fuel, 0, []);
      && r.requests == [ListRequest("src", None), ListRequest("src", Some("T"))]
      && r.outcome == Ok(["src/a", "src/b", "src/c"])
  {
    var svc := TwoPageService();
    var pages := Listing(svc, "src");
    AsWrittenTruncatedFirstPageExhausts(svc, "src", 0, fuel, 0, []);
    if fuel >= 2 {
      ResumingListsEveryPage(svc, "src", 0, fuel);
      assert AllKeys(pages) == ["a", "b", "c"] by {
        assert pages[1..][1..] == [];
      }
      assert Ref("src", "a") == "src/a" && Ref("src", "b") == "src/b" && Ref("src", "c") == "src/c";
      assert Refs("src", ["a", "b", "c"]) == ["src/a", "src/b", "src/c"];
    }
  }
}
