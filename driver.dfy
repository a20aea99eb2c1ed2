/** The replication driver itself: a Syncronizer holds the configured bucket
    pairs and the storage client, and records every call it issues (trace)
    and every progress line it prints (progress). Each method is proved to
    do exactly what the matching function of module Replication describes. */
module Driver {
  import opened Storage
  import opened Replication

  lemma ListCallsSnoc(reqs: seq<ListRequest>, req: ListRequest)
    ensures ListCalls(reqs + [req]) == ListCalls(reqs) + [List(req)]
  {
    assert forall k :: 0 <= k < |reqs| + 1 ==> ListCalls(reqs + [req])[k] == (ListCalls(reqs) + [List(req)])[k];
  }

  lemma CopyCallsSnoc(reqs: seq<CopyRequest>, req: CopyRequest)
    ensures CopyCalls(reqs + [req]) == CopyCalls(reqs) + [Copy(req)]
  {
    assert forall k :: 0 <= k < |reqs| + 1 ==> CopyCalls(reqs + [req])[k] == (CopyCalls(reqs) + [Copy(req)])[k];
  }

  lemma AppendAssoc<T>(a: seq<T>, b: seq<T>, c: seq<T>)
    ensures (a + b) + c == a + (b + c)
  {
  }

  /** The call a loop iteration issues extends a trace of earlier list calls. */
  lemma TraceSnoc(t: seq<Call>, calls: seq<ListRequest>, input: ListRequest)
    ensures (t + ListCalls(calls)) + [List(input)] == t + ListCalls(calls + [input])
  {
    ListCallsSnoc(calls, input);
    AppendAssoc(t, ListCalls(calls), [List(input)]);
  }

  /** Appending one pair's calls and lines to a run's. */
  lemma PairAppended(t: seq<Call>, lines: seq<ProgressLine>, done: seq<PairTrace>, p: PairTrace)
    ensures (t + Calls(done)) + ListCalls(p.lists) + CopyCalls(p.copies) == t + Calls(done + [p])
    ensures (lines + Lines(done)) + p.lines == lines + Lines(done + [p])
  {
    CallsAppend(done, [p]);
    LinesAppend(done, [p]);
    assert Calls([p]) == PairCalls(p) + [];
    assert Lines([p]) == p.lines + [];
    AppendAssoc(t + Calls(done), ListCalls(p.lists), CopyCalls(p.copies));
    AppendAssoc(t, Calls(done), PairCalls(p));
    AppendAssoc(lines, Lines(done), p.lines);
  }

  class Syncronizer {
    /** The storage client. */
    const service: Service
    /** The configured bucket pairs, in declared order. */
    const locations: seq<Locations>
    /** The most list calls one listObjects may issue before the model
        stops following it (the Go loop in listObjects has no such bound). */
    const listBudget: nat
    /** Every call issued to the service so far, in order. */
    var trace: seq<Call>
    /** Every progress line printed so far, in order. */
    var progress: seq<ProgressLine>

    constructor (service: Service, locations: seq<Locations>, listBudget: nat)
      requires listBudget > 0
      ensures this.service == service && this.locations == locations && this.listBudget == listBudget
      ensures trace == [] && progress == []
    {
      this.service := service;
      this.locations := locations;
      this.listBudget := listBudget;
      trace := [];
      progress := [];
    }

    /** The client's ListObjectsV2: the service answers the request as the
        next call of the run, and the call is recorded. */
    method ListObjectsV2(input: ListRequest) returns (resp: Reply<Page>)
      modifies this`trace
      ensures resp == ListPage(service, input, old(|trace|))
      ensures trace == old(trace) + [List(input)]
    {
      resp := ListPage(service, input, |trace|);
      trace := trace + [List(input)];
    }

    /** The client's CopyObject, likewise. */
    method CopyObjectCall(req: CopyRequest) returns (reply: Reply<()>)
      modifies this`trace
      ensures reply == CopyObject(service, req, old(|trace|))
      ensures trace == old(trace) + [Copy(req)]
    {
      reply := CopyObject(service, req, |trace|);
      trace := trace + [Copy(req)];
    }

    /** The two loops of listObjects over one page's contents: a progress
        line per key, numbered on from objectNum, then a reference per key. */
    method ConsumePage(bucketName: string, page: Page, objectNum: nat, objectsList: seq<string>)
      returns (objectNum': nat, objectsList': seq<string>)
      modifies this`progress
      ensures progress == old(progress) + ProgressLines(page.keys, objectNum)
      ensures objectNum' == objectNum + |page.keys|
      ensures objectsList' == objectsList + Refs(bucketName, page.keys)
    {
      objectNum' := objectNum;
      for i := 0 to |page.keys|
        invariant progress == old(progress) + ProgressLines(page.keys[..i], objectNum)
        invariant objectNum' == objectNum + i
      {
        assert ProgressLines(page.keys[..i + 1], objectNum)
               == ProgressLines(page.keys[..i], objectNum) + [ProgressLine(objectNum', page.keys[i])];
        progress := progress + [ProgressLine(objectNum', page.keys[i])];
        objectNum' := objectNum' + 1;
      }
      assert page.keys[..|page.keys|] == page.keys;
      objectsList' := objectsList;
      for i := 0 to |page.keys|
        invariant objectsList' == objectsList + Refs(bucketName, page.keys[..i])
      {
        assert Refs(bucketName, page.keys[..i + 1])
               == Refs(bucketName, page.keys[..i]) + [Ref(bucketName, page.keys[i])];
        objectsList' := objectsList' + [Ref(bucketName, page.keys[i])];
      }
    }

    /** One iteration of the listObjects loop: send `input`, and on a
        served page print and collect its keys. Seen from a run `whole`
        of which `calls` and `lines` are done, the iteration either ends the
        run (a refusal or a final page) or leaves the loop to go on from
        the next request, as ListLoop describes. */
    method ListStep(bucketName: string, input: ListRequest, objectNum: nat, objectsList: seq<string>,
                    ghost resume: bool, ghost fuel: nat,
                    ghost whole: ListRun, ghost calls: seq<ListRequest>, ghost lines: seq<ProgressLine>)
      returns (resp: Reply<Page>, objectNum': nat, objectsList': seq<string>)
      modifies this`trace, this`progress
      requires fuel > 0
      requires ListRemains(whole, calls, lines, service, bucketName, input, resume, |trace|, fuel, objectNum, objectsList)
      ensures resp == ListPage(service, input, old(|trace|))
      ensures trace == old(trace) + [List(input)]
      ensures resp.Refused? ==> progress == old(progress)
                                && whole == ListRun(calls + [input], lines, Fail(UnableToList(resp.error)))
      ensures resp.Served? ==> var page := resp.value;
                               && progress == old(progress) + ProgressLines(page.keys, objectNum)
                               && objectNum' == objectNum + |page.keys|
                               && objectsList' == objectsList + Refs(bucketName, page.keys)
      ensures Final(resp) ==> whole == ListRun(calls + [input], lines + ProgressLines(resp.value.keys, objectNum), Ok(objectsList'))
      ensures Truncated(resp) ==>
                var next := if resume then NextRequest(bucketName, resp.value.next) else input;
                ListRemains(whole, calls + [input], lines + ProgressLines(resp.value.keys, objectNum),
                            service, bucketName, next, resume, |trace|, fuel - 1, objectNum', objectsList')
    {
      ghost var n := |trace|;
      resp := ListObjectsV2(input);
      objectNum', objectsList' := objectNum, objectsList;
      if resp.Refused? {
        ListLoopRefused(whole, calls, lines, service, bucketName, input, resume, n, fuel, objectNum, objectsList);
        return;
      }
      var page := resp.value;
      if page.truncated {
        ListLoopContinues(whole, calls, lines, service, bucketName, input, resume, n, fuel, objectNum, objectsList);
      } else {
        ListLoopFinal(whole, calls, lines, service, bucketName, input, resume, n, fuel, objectNum, objectsList);
      }
      objectNum', objectsList' := ConsumePage(bucketName, page, objectNum, objectsList);
    }

    /** listObjects as written: the request is built once, before the loop,
        from the empty token, and is sent unchanged on every iteration. */
    method ListObjects(bucketName: string) returns (result: Outcome<seq<string>>)
      modifies this`trace, this`progress
      ensures var r := ListLoop(service, bucketName, NextRequest(bucketName, ""), false, old(|trace|), listBudget, 0, []);
              && trace == old(trace) + ListCalls(r.requests)
              && progress == old(progress) + r.lines
              && result == r.outcome
    {
      var continuationToken := "";
      var objectsList: seq<string> := [];
      var objectNum: nat := 0;
      var input := ListRequest(bucketName, None);
      if continuationToken != "" {
        input := ListRequest(bucketName, Some(continuationToken));
      }
      assert input == NextRequest(bucketName, "");
      ghost var whole := ListLoop(service, bucketName, input, false, |trace|, listBudget, 0, []);
      ghost var calls: seq<ListRequest> := [];
      ghost var lines: seq<ProgressLine> := [];
      var steps: nat := 0;
      while steps < listBudget
        invariant steps <= listBudget
        invariant whole == ListLoop(service, bucketName, NextRequest(bucketName, ""), false, old(|trace|), listBudget, 0, [])
        invariant trace == old(trace) + ListCalls(calls) && progress == old(progress) + lines
        invariant ListRemains(whole, calls, lines, service, bucketName, input, false,
                              |trace|, listBudget - steps, objectNum, objectsList)
        decreases listBudget - steps
      {
        TraceSnoc(old(trace), calls, input);
        var resp, objectNum', objectsList' :=
          ListStep(bucketName, input, objectNum, objectsList, false, listBudget - steps, whole, calls, lines);
        calls := calls + [input];
        if resp.Refused? {
          result := Fail(UnableToList(resp.error));
          return;
        }
        var page := resp.value;
        AppendAssoc(old(progress), lines, ProgressLines(page.keys, objectNum));
        lines := lines + ProgressLines(page.keys, objectNum);
        objectNum, objectsList := objectNum', objectsList';
        if !page.truncated {
          result := Ok(objectsList);
          return;
        }
        continuationToken := page.next;
        steps := steps + 1;
      }
      result := Exhausted;
    }

    /** listObjects as evidently intended: each request is built from the
        current continuation token, so every page after the first is asked
        for with the token of the page before it. */
    method ListObjectsResuming(bucketName: string) returns (result: Outcome<seq<string>>)
      modifies this`trace, this`progress
      ensures var r := ListLoop(service, bucketName, NextRequest(bucketName, ""), true, old(|trace|), listBudget, 0, []);
              && trace == old(trace) + ListCalls(r.requests)
              && progress == old(progress) + r.lines
              && result == r.outcome
    {
      var continuationToken := "";
      var objectsList: seq<string> := [];
      var objectNum: nat := 0;
      ghost var whole := ListLoop(service, bucketName, NextRequest(bucketName, ""), true, |trace|, listBudget, 0, []);
      ghost var calls: seq<ListRequest> := [];
      ghost var lines: seq<ProgressLine> := [];
      var steps: nat := 0;
      while steps < listBudget
        invariant steps <= listBudget
        invariant whole == ListLoop(service, bucketName, NextRequest(bucketName, ""), true, old(|trace|), listBudget, 0, [])
        invariant trace == old(trace) + ListCalls(calls) && progress == old(progress) + lines
        invariant ListRemains(whole, calls, lines, service, bucketName, NextRequest(bucketName, continuationToken), true,
                              |trace|, listBudget - steps, objectNum, objectsList)
        decreases listBudget - steps
      {
        var input := ListRequest(bucketName, None);
        if continuationToken != "" {
          input := ListRequest(bucketName, Some(continuationToken));
        }
        assert input == NextRequest(bucketName, continuationToken);
        TraceSnoc(old(trace), calls, input);
        var resp, objectNum', objectsList' :=
          ListStep(bucketName, input, objectNum, objectsList, true, listBudget - steps, whole, calls, lines);
        calls := calls + [input];
        if resp.Refused? {
          result := Fail(UnableToList(resp.error));
          return;
        }
        var page := resp.value;
        AppendAssoc(old(progress), lines, ProgressLines(page.keys, objectNum));
        lines := lines + ProgressLines(page.keys, objectNum);
        objectNum, objectsList := objectNum', objectsList';
        if !page.truncated {
          result := Ok(objectsList);
          return;
        }
        continuationToken := page.next;
        steps := steps + 1;
      }
      result := Exhausted;
    }

    /** migrate: one server-side copy per reference, in order, the reference
        serving as both copy source and destination key; it stops at the
        first refused copy. */
    method Migrate(objectsList: seq<string>, destinationBucket: string) returns (err: Option<Error>)
      modifies this`trace
      ensures var m := Migration(service, objectsList, destinationBucket, old(|trace|));
              trace == old(trace) + CopyCalls(m.copies) && err == m.status
    {
      ghost var whole := Migration(service, objectsList, destinationBucket, |trace|);
      ghost var copies: seq<CopyRequest> := [];
      for i := 0 to |objectsList|
        invariant trace == old(trace) + CopyCalls(copies)
        invariant var rest := Migration(service, objectsList[i..], destinationBucket, |trace|);
                  whole == MigrateRun(copies + rest.copies, rest.status)
      {
        var obj := objectsList[i];
        var req := CopyRequest(destinationBucket, obj, obj);
        assert objectsList[i..][0] == obj && objectsList[i..][1..] == objectsList[i + 1..];
        CopyCallsSnoc(copies, req);
        var reply := CopyObjectCall(req);
        copies := copies + [req];
        if reply.Refused? {
          err := Some(UnableToCopy(reply.error));
          return;
        }
      }
      err := None;
    }

    /** One iteration of Sync's loop: listObjects on the pair's source, then,
        if that returned a list, migrate into its destination. */
    method SyncPair(location: Locations) returns (result: Outcome<()>)
      modifies this`trace, this`progress
      ensures var p := RunPair(service, location, old(|trace|), listBudget, false);
              && trace == old(trace) + ListCalls(p.trace.lists) + CopyCalls(p.trace.copies)
              && progress == old(progress) + p.trace.lines
              && result == p.outcome
    {
      RunPairParts(service, location, |trace|, listBudget, false);
      var objectsList := ListObjects(location.source);
      if objectsList.Fail? {
        assert CopyCalls([]) == [];
        result := Fail(SyncListing(objectsList.error));
        return;
      }
      if objectsList.Exhausted? {
        assert CopyCalls([]) == [];
        result := Exhausted;
        return;
      }
      var err := Migrate(objectsList.value, location.dest);
      if err.Some? {
        result := Fail(SyncMigrating(err.value));
        return;
      }
      result := Ok(());
    }

    /** Sync: for each pair in declared order, listObjects on the source and
        then migrate into the destination, returning at the first error. */
    method Sync() returns (result: Outcome<()>)
      modifies this`trace, this`progress
      ensures var s := Synchronization(service, locations, old(|trace|), listBudget, false);
              && trace == old(trace) + Calls(s.pairs)
              && progress == old(progress) + Lines(s.pairs)
              && result == s.outcome
    {
      ghost var whole := Synchronization(service, locations, |trace|, listBudget, false);
      ghost var done: seq<PairTrace> := [];
      for i := 0 to |locations|
        invariant whole == Synchronization(service, locations, old(|trace|), listBudget, false)
        invariant trace == old(trace) + Calls(done) && progress == old(progress) + Lines(done)
        invariant SyncRemains(whole, done, service, locations[i..], |trace|, listBudget, false)
      {
        var location := locations[i];
        assert locations[i..][0] == location && locations[i..][1..] == locations[i + 1..];
        ghost var n := |trace|;
        ghost var p := RunPair(service, location, n, listBudget, false);
        PairAppended(old(trace), old(progress), done, p.trace);
        var pairResult := SyncPair(location);
        assert |trace| == n + CallCount(p.trace);
        if !p.outcome.Ok? {
          SyncPairStops(whole, done, service, locations[i..], n, listBudget, false);
        } else {
          SyncPairContinues(whole, done, service, locations[i..], n, listBudget, false, p.trace, locations[i + 1..], |trace|);
        }
        done := done + [p.trace];
        if !pairResult.Ok? {
          result := pairResult;
          return;
        }
      }
      assert locations[|locations|..] == [];
      SyncDone(whole, done, service, |trace|, listBudget, false);
      result := Ok(());
    }
  }
}
