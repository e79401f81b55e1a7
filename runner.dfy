/**
 * The measuring loops of `benchmark`: which responses become samples, in which list,
 * and when the run is abandoned.
 *
 * The server and the clock are not modelled: `server` gives, for each request the run
 * issues, the status, the body length and the elapsed time measured around it. Every
 * request of a run is different (each carries its own object name or iteration
 * number), so one such function describes any run.
 */
module Runner {
  import opened Wrappers

  /** The four payload sizes, in the order the phases visit them. */
  datatype Size = Kb1 | Kb4 | Kb64 | Mb1

  const Sizes: seq<Size> := [Kb1, Kb4, Kb64, Mb1]

  /** The `size_name` of each payload. */
  function SizeName(s: Size): string
  {
    match s
    case Kb1 => "1kb"
    case Kb4 => "4kb"
    case Kb64 => "64kb"
    case Mb1 => "1mb"
  }

  /** `len(data)` of each payload: `b"x" * 1024` and so on. */
  function PayloadLength(s: Size): nat
  {
    match s
    case Kb1 => 1024
    case Kb4 => 4096
    case Kb64 => 65536
    case Mb1 => 1048576
  }

  /** One measured request. `Put(s, i)` stores object bench_<s>_<i>; `ListObjects(i)` is the i-th listing. */
  datatype Call = CreateBucket | Put(size: Size, i: nat) | Get(size: Size, i: nat) | ListObjects(i: nat) | Delete(size: Size, i: nat)

  /** What `request` returned, and the time measured around it. */
  datatype Response = Response(status: int, bodyLength: nat, elapsed: real)

  /** A list of the results dict. */
  datatype Op = CreateBucketOp | PutOp(size: Size) | GetOp(size: Size) | ListOp | DeleteOp

  const AllOps: set<Op> := {CreateBucketOp, PutOp(Kb1), PutOp(Kb4), PutOp(Kb64), PutOp(Mb1),
                            GetOp(Kb1), GetOp(Kb4), GetOp(Kb64), GetOp(Mb1), ListOp, DeleteOp}

  /** The dict key of each list. */
  function Key(op: Op): string
  {
    match op
    case CreateBucketOp => "create_bucket"
    case PutOp(s) => "put_" + SizeName(s)
    case GetOp(s) => "get_" + SizeName(s)
    case ListOp => "list"
    case DeleteOp => "delete"
  }

  /** Bucket creation succeeded or the bucket already exists: the run goes on. */
  predicate BucketReady(status: int)
  {
    status == 200 || status == 409
  }

  /** Whether the response to `call` is kept as a sample. */
  predicate Records(call: Call, r: Response)
  {
    match call
    case CreateBucket => true
    case Put(_, _) => r.status == 200
    case Get(s, _) => r.status == 200 && r.bodyLength == PayloadLength(s)
    case ListObjects(_) => r.status == 200
    case Delete(_, _) => r.status == 204
  }

  /** `range(iterations)` has no elements when `iterations` is not positive. */
  function Count(iterations: int): nat
  {
    if iterations > 0 then iterations else 0
  }

  function Puts(s: Size, n: nat): seq<Call>
  {
    seq(n, i requires 0 <= i < n => Put(s, i))
  }

  function Gets(s: Size, n: nat): seq<Call>
  {
    seq(n, i requires 0 <= i < n => Get(s, i))
  }

  function Lists(n: nat): seq<Call>
  {
    seq(n, i requires 0 <= i < n => ListObjects(i))
  }

  function Deletes(s: Size, n: nat): seq<Call>
  {
    seq(n, i requires 0 <= i < n => Delete(s, i))
  }

  /** The delete calls of the first k sizes, size by size. */
  function DeletesUpTo(k: nat, n: nat): seq<Call>
    requires k <= |Sizes|
  {
    if k == 0 then [] else DeletesUpTo(k - 1, n) + Deletes(Sizes[k - 1], n)
  }

  /** The requests whose samples go into the list of `op`, in the order they are issued. */
  function Calls(op: Op, n: nat): seq<Call>
  {
    match op
    case CreateBucketOp => [CreateBucket]
    case PutOp(s) => Puts(s, n)
    case GetOp(s) => Gets(s, n)
    case ListOp => Lists(n)
    case DeleteOp => DeletesUpTo(4, n)
  }

  /** The elapsed times of the responses to `calls` that are kept, in call order. */
  function Samples(server: Call -> Response, calls: seq<Call>): seq<real>
  {
    if calls == [] then []
    else
      var last := calls[|calls| - 1];
      Samples(server, calls[..|calls| - 1]) + (if Records(last, server(last)) then [server(last).elapsed] else [])
  }

  /** The phases of a run after the bucket exists, in the order they run, then its end. */
  datatype Stage = Putting | Getting | Listing | Deleting | Finished

  /** The position of a stage in the run. */
  function Rank(stage: Stage): nat
  {
    match stage
    case Putting => 0
    case Getting => 1
    case Listing => 2
    case Deleting => 3
    case Finished => 4
  }

  /** The stage that follows a phase. */
  function NextStage(stage: Stage): Stage
  {
    match stage
    case Putting => Getting
    case Getting => Listing
    case Listing => Deleting
    case Deleting => Finished
    case Finished => Finished
  }

  /** Whether a stage runs one loop per size (PUT, GET and DELETE do; LIST does not). */
  predicate Looping(stage: Stage)
  {
    stage == Putting || stage == Getting || stage == Deleting
  }

  /**
   * The list of `op` at the start of step k of a stage; within PUT, GET and DELETE, step k
   * is the size Sizes[k].
   */
  function Entry(server: Call -> Response, n: nat, op: Op, phase: Stage, k: nat): seq<real>
    requires k <= |Sizes|
  {
    match op
    case CreateBucketOp => Samples(server, Calls(op, n))
    case PutOp(s) => if Rank(phase) > Rank(Putting) || SizeIndex(s) < k then Samples(server, Calls(op, n)) else []
    case GetOp(s) => if Rank(phase) > Rank(Getting) || (phase == Getting && SizeIndex(s) < k) then Samples(server, Calls(op, n)) else []
    case ListOp => if Rank(phase) > Rank(Listing) then Samples(server, Calls(op, n)) else []
    case DeleteOp => if phase == Finished then Samples(server, Calls(op, n))
                     else if phase == Deleting then Samples(server, DeletesUpTo(k, n)) else []
  }

  /** The results dict at the start of step k of a stage. */
  function Snapshot(server: Call -> Response, n: nat, phase: Stage, k: nat): map<Op, seq<real>>
    requires k <= |Sizes|
  {
    map op | op in AllOps :: Entry(server, n, op, phase, k)
  }

  /**
   * The recording loop of one phase: issues `calls` in order and appends the elapsed time
   * of every kept response to the list of `op`.
   */
  method RecordPhase(server: Call -> Response, results: map<Op, seq<real>>, op: Op, calls: seq<Call>)
    returns (updated: map<Op, seq<real>>)
    requires op in results
    ensures updated == results[op := results[op] + Samples(server, calls)]
  {
    updated := results;
    assert Samples(server, calls[..0]) == [];
    assert results[op] + [] == results[op];
    for i := 0 to |calls|
      invariant op in updated && updated == results[op := updated[op]]
      invariant updated[op] == results[op] + Samples(server, calls[..i])
    {
      var response := server(calls[i]);
      assert calls[..i + 1][..i] == calls[..i];
      if Records(calls[i], response) {
        updated := updated[op := updated[op] + [response.elapsed]];
      }
    }
    assert calls[..|calls|] == calls;
  }

  /**
   * `benchmark(...)`: creates the bucket, then runs the PUT, GET, LIST and DELETE phases,
   * `iterations` requests per size. None when bucket creation neither succeeds nor finds
   * the bucket there already; otherwise every list holds exactly the kept samples of its
   * requests, in order.
   */
  method Benchmark(server: Call -> Response, iterations: int) returns (results: Option<map<Op, seq<real>>>)
    ensures results.None? <==> !BucketReady(server(CreateBucket).status)
    ensures results.Some? ==> results.value.Keys == AllOps &&
                              forall op :: op in AllOps ==> results.value[op] == Samples(server, Calls(op, Count(iterations)))
  {
    var n := Count(iterations);
    var res := map op | op in AllOps :: [];
    var created := server(CreateBucket);
    res := res[CreateBucketOp := res[CreateBucketOp] + [created.elapsed]];
    if !BucketReady(created.status) {
      return None;
    }
    StartSnapshot(server, n, res);
    res := PutPhase(server, n, res);
    res := GetPhase(server, n, res);
    ListStep(server, n);
    res := RecordPhase(server, res, ListOp, Lists(n));
    res := DeletePhase(server, n, res);
    FinalSnapshot(server, n);
    results := Some(res);
  }

  /** The PUT loops: for each size in turn, `n` uploads, keeping those answered 200. */
  method PutPhase(server: Call -> Response, n: nat, start: map<Op, seq<real>>) returns (res: map<Op, seq<real>>)
    requires start == Snapshot(server, n, Putting, 0)
    ensures res == Snapshot(server, n, Getting, 0)
  {
    res := start;
    for k := 0 to 4
      invariant res == Snapshot(server, n, Putting, k)
    {
      var s := Sizes[k];
      PhaseStep(server, n, Putting, k);
      res := RecordPhase(server, res, PutOp(s), Puts(s, n));
    }
    PhaseEnd(server, n, Putting);
  }

  /** The GET loops: for each size in turn, `n` downloads, keeping those answered 200 with the whole object. */
  method GetPhase(server: Call -> Response, n: nat, start: map<Op, seq<real>>) returns (res: map<Op, seq<real>>)
    requires start == Snapshot(server, n, Getting, 0)
    ensures res == Snapshot(server, n, Listing, 0)
  {
    res := start;
    for k := 0 to 4
      invariant res == Snapshot(server, n, Getting, k)
    {
      var s := Sizes[k];
      PhaseStep(server, n, Getting, k);
      res := RecordPhase(server, res, GetOp(s), Gets(s, n));
    }
    PhaseEnd(server, n, Getting);
  }

  /** The DELETE loops: for each size in turn, `n` deletions into the one delete list, keeping those answered 204. */
  method DeletePhase(server: Call -> Response, n: nat, start: map<Op, seq<real>>) returns (res: map<Op, seq<real>>)
    requires start == Snapshot(server, n, Deleting, 0)
    ensures res == Snapshot(server, n, Finished, 0)
  {
    res := start;
    for k := 0 to 4
      invariant res == Snapshot(server, n, Deleting, k)
    {
      PhaseStep(server, n, Deleting, k);
      res := RecordPhase(server, res, DeleteOp, Deletes(Sizes[k], n));
    }
    PhaseEnd(server, n, Deleting);
  }

  function SizeIndex(s: Size): (k: nat)
    ensures k < |Sizes| && Sizes[k] == s
  {
    match s
    case Kb1 => 0
    case Kb4 => 1
    case Kb64 => 2
    case Mb1 => 3
  }

  lemma StartSnapshot(server: Call -> Response, n: nat, res: map<Op, seq<real>>)
    requires res == (map op | op in AllOps :: [])[CreateBucketOp := [] + [server(CreateBucket).elapsed]]
    ensures res == Snapshot(server, n, Putting, 0)
  {
    assert Samples(server, [CreateBucket]) == [server(CreateBucket).elapsed] by {
      assert [CreateBucket][..0] == [];
    }
  }

  /** Completing one list, and leaving the others as they are, moves one snapshot to another. */
  lemma UpdateSnapshot(server: Call -> Response, n: nat, op: Op, v: seq<real>, p: Stage, k: nat, p': Stage, k': nat)
    requires k <= |Sizes| && k' <= |Sizes| && op in AllOps
    requires v == Entry(server, n, op, p', k')
    requires forall o :: o in AllOps && o != op ==> Entry(server, n, o, p, k) == Entry(server, n, o, p', k')
    ensures Snapshot(server, n, p, k)[op := v] == Snapshot(server, n, p', k')
  {
    var before := Snapshot(server, n, p, k);
    var after := Snapshot(server, n, p', k');
    forall o | o in before && o != op ensures before[o] == after[o] {
      assert before[o] == Entry(server, n, o, p, k) && after[o] == Entry(server, n, o, p', k');
    }
    ReplaceOne(before, after, op, v);
  }

  /** Two dicts with the same keys that differ at most at `op` agree once `op` is set to the second's value. */
  lemma ReplaceOne(before: map<Op, seq<real>>, after: map<Op, seq<real>>, op: Op, v: seq<real>)
    requires before.Keys == after.Keys && op in after && v == after[op]
    requires forall o :: o in before && o != op ==> before[o] == after[o]
    ensures before[op := v] == after
  {
  }

  /** Two descriptions of the same moment: the end of a phase's last step is the start of the next phase. */
  lemma SameSnapshot(server: Call -> Response, n: nat, p: Stage, k: nat, p': Stage, k': nat)
    requires k <= |Sizes| && k' <= |Sizes|
    requires forall o :: o in AllOps ==> Entry(server, n, o, p, k) == Entry(server, n, o, p', k')
    ensures Snapshot(server, n, p, k) == Snapshot(server, n, p', k')
  {
  }

  /** The list step k of a looping phase appends to. */
  function PhaseOp(p: Stage, k: nat): Op
    requires k < |Sizes|
  {
    match p
    case Putting => PutOp(Sizes[k])
    case Getting => GetOp(Sizes[k])
    case _ => DeleteOp
  }

  /** The requests step k of a looping phase issues. */
  function PhaseCalls(p: Stage, k: nat, n: nat): seq<Call>
    requires k < |Sizes|
  {
    match p
    case Putting => Puts(Sizes[k], n)
    case Getting => Gets(Sizes[k], n)
    case _ => Deletes(Sizes[k], n)
  }

  /** Appending the samples of step k to its list gives the snapshot of step k + 1. */
  lemma PhaseStep(server: Call -> Response, n: nat, p: Stage, k: nat)
    requires Looping(p) && k < |Sizes|
    ensures var before := Snapshot(server, n, p, k);
            var op := PhaseOp(p, k);
            op in before && before[op := before[op] + Samples(server, PhaseCalls(p, k, n))] == Snapshot(server, n, p, k + 1)
  {
    var op := PhaseOp(p, k);
    var v := Entry(server, n, op, p, k + 1);
    var before := Snapshot(server, n, p, k);
    assert op in AllOps;
    assert before[op] == Entry(server, n, op, p, k);
    OwnListStep(server, n, p, k);
    assert before[op] + Samples(server, PhaseCalls(p, k, n)) == v;
    OthersUnchanged(server, n, p, k);
    UpdateSnapshot(server, n, op, v, p, k, p, k + 1);
  }

  /** Step k of a looping phase completes its own list: empty before, for PUT and GET; one size more, for DELETE. */
  lemma OwnListStep(server: Call -> Response, n: nat, p: Stage, k: nat)
    requires Looping(p) && k < |Sizes|
    ensures Entry(server, n, PhaseOp(p, k), p, k) + Samples(server, PhaseCalls(p, k, n)) == Entry(server, n, PhaseOp(p, k), p, k + 1)
  {
    assert SizeIndex(Sizes[k]) == k;
    match p
    case Putting =>
      assert Entry(server, n, PutOp(Sizes[k]), p, k) == [];
    case Getting =>
      assert Entry(server, n, GetOp(Sizes[k]), p, k) == [];
    case Deleting =>
      SamplesAppend(server, DeletesUpTo(k, n), Deletes(Sizes[k], n));
  }

  /** Step k of a looping phase leaves every list but its own as it was. */
  lemma OthersUnchanged(server: Call -> Response, n: nat, p: Stage, k: nat)
    requires Looping(p) && k < |Sizes|
    ensures forall o :: o in AllOps && o != PhaseOp(p, k) ==> Entry(server, n, o, p, k) == Entry(server, n, o, p, k + 1)
  {
    forall o | o in AllOps && o != PhaseOp(p, k) ensures Entry(server, n, o, p, k) == Entry(server, n, o, p, k + 1) {
      if o.PutOp? || o.GetOp? {
        assert SizeIndex(o.size) != k || o != PhaseOp(p, k);
      }
    }
  }

  /** The end of a looping phase is the start of the next phase. */
  lemma PhaseEnd(server: Call -> Response, n: nat, p: Stage)
    requires Looping(p)
    ensures Snapshot(server, n, p, 4) == Snapshot(server, n, NextStage(p), 0)
  {
    SameSnapshot(server, n, p, 4, NextStage(p), 0);
  }

  /** The LIST loop completes the list of listings. */
  lemma ListStep(server: Call -> Response, n: nat)
    ensures var before := Snapshot(server, n, Listing, 0);
            ListOp in before && before[ListOp := before[ListOp] + Samples(server, Lists(n))] == Snapshot(server, n, Deleting, 0)
  {
    var v := Samples(server, Lists(n));
    assert Entry(server, n, ListOp, Listing, 0) + v == v;
    forall o | o in AllOps && o != ListOp ensures Entry(server, n, o, Listing, 0) == Entry(server, n, o, Deleting, 0) {
    }
    UpdateSnapshot(server, n, ListOp, v, Listing, 0, Deleting, 0);
  }

  /** At the end of the run every list is complete. */
  lemma FinalSnapshot(server: Call -> Response, n: nat)
    ensures var final := Snapshot(server, n, Finished, 0);
            final.Keys == AllOps && forall op :: op in AllOps ==> final[op] == Samples(server, Calls(op, n))
  {
    var final := Snapshot(server, n, Finished, 0);
    forall op | op in AllOps ensures final[op] == Samples(server, Calls(op, n)) {
      CompleteAtEnd(server, n, op);
    }
  }

  /** At the end of the run the list of `op` holds the samples of all its requests. */
  lemma CompleteAtEnd(server: Call -> Response, n: nat, op: Op)
    ensures Entry(server, n, op, Finished, 0) == Samples(server, Calls(op, n))
  {
    assert Rank(Finished) == 4;
  }

  // ---------------------------------------------------------------------------------------
  // Properties

  /** Samples of consecutive stretches of requests are the samples of each, one after the other. */
  lemma {:induction false} SamplesAppend(server: Call -> Response, a: seq<Call>, b: seq<Call>)
    ensures Samples(server, a + b) == Samples(server, a) + Samples(server, b)
    decreases |b|
  {
    if b != [] {
      var last := b[|b| - 1];
      assert (a + b)[..|a + b| - 1] == a + b[..|b| - 1];
      SamplesAppend(server, a, b[..|b| - 1]);
    } else {
      assert a + b == a;
    }
  }

  /** At most one sample per request: a list never holds more entries than requests were made for it. */
  lemma {:induction false} SamplesBound(server: Call -> Response, calls: seq<Call>)
    ensures |Samples(server, calls)| <= |calls|
  {
    if calls != [] {
      SamplesBound(server, calls[..|calls| - 1]);
    }
  }

  /** Every sample is the elapsed time of a response that passed its rule. */
  lemma {:induction false} SamplesSound(server: Call -> Response, calls: seq<Call>, t: real)
    requires t in Samples(server, calls)
    ensures exists c :: c in calls && Records(c, server(c)) && server(c).elapsed == t
  {
    var front := calls[..|calls| - 1];
    var last := calls[|calls| - 1];
    if t in Samples(server, front) {
      SamplesSound(server, front, t);
      var c :| c in front && Records(c, server(c)) && server(c).elapsed == t;
      assert c in calls;
    } else {
      assert Records(last, server(last)) && server(last).elapsed == t;
    }
  }

  /** The requests whose response passed its rule. */
  function Kept(server: Call -> Response, calls: seq<Call>): nat
  {
    if calls == [] then 0
    else Kept(server, calls[..|calls| - 1]) + (if Records(calls[|calls| - 1], server(calls[|calls| - 1])) then 1 else 0)
  }

  /** Every response that passed its rule leaves exactly one sample: none is dropped. */
  lemma {:induction false} SamplesComplete(server: Call -> Response, calls: seq<Call>)
    ensures |Samples(server, calls)| == Kept(server, calls)
  {
    if calls != [] {
      SamplesComplete(server, calls[..|calls| - 1]);
    }
  }

  /** When every response passes, each request leaves its sample, in request order. */
  lemma {:induction false} AllKept(server: Call -> Response, calls: seq<Call>)
    requires forall c :: c in calls ==> Records(c, server(c))
    ensures Samples(server, calls) == seq(|calls|, i requires 0 <= i < |calls| => server(calls[i]).elapsed)
  {
    if calls != [] {
      var front := calls[..|calls| - 1];
      assert forall c :: c in front ==> c in calls;
      AllKept(server, front);
    }
  }

  /** PUT, GET and LIST lists hold at most `iterations` samples per size, the delete list four times that. */
  lemma {:induction false} PhaseBounds(server: Call -> Response, iterations: int, op: Op)
    ensures var n := Count(iterations);
            |Samples(server, Calls(op, n))| <= (match op
                                                case CreateBucketOp => 1
                                                case DeleteOp => 4 * n
                                                case _ => n)
  {
    var n := Count(iterations);
    SamplesBound(server, Calls(op, n));
    if op == DeleteOp {
      DeletesLength(4, n);
    }
  }

  lemma {:induction false} DeletesLength(k: nat, n: nat)
    requires k <= |Sizes|
    ensures |DeletesUpTo(k, n)| == k * n
  {
    if k > 0 {
      DeletesLength(k - 1, n);
    }
  }

  /** Every response that passed its rule leaves its elapsed time among the samples. */
  lemma {:induction false} SamplesKeep(server: Call -> Response, calls: seq<Call>, c: Call)
    requires c in calls && Records(c, server(c))
    ensures server(c).elapsed in Samples(server, calls)
  {
    var front := calls[..|calls| - 1];
    if c != calls[|calls| - 1] {
      assert calls == front + [calls[|calls| - 1]];
      assert c in front;
      SamplesKeep(server, front, c);
    }
  }

  /**
   * Each sample of a GET list (the list `Benchmark` returns for `GetOp(s)`) is the time of
   * some GET of that size that answered 200 with a body of the payload's full length.
   */
  lemma {:induction false} GetSamples(server: Call -> Response, n: nat, s: Size, t: real)
    requires t in Samples(server, Calls(GetOp(s), n))
    ensures exists i :: 0 <= i < n && server(Get(s, i)).status == 200 &&
                        server(Get(s, i)).bodyLength == PayloadLength(s) && server(Get(s, i)).elapsed == t
  {
    SamplesSound(server, Gets(s, n), t);
    var c :| c in Gets(s, n) && Records(c, server(c)) && server(c).elapsed == t;
    var k :| 0 <= k < n && Gets(s, n)[k] == c;
    assert c == Get(s, k);
  }

  /** Conversely, a GET that answered 200 with the full body is in the GET list of its size. */
  lemma {:induction false} GetKept(server: Call -> Response, n: nat, s: Size, i: nat)
    requires i < n && server(Get(s, i)).status == 200 && server(Get(s, i)).bodyLength == PayloadLength(s)
    ensures server(Get(s, i)).elapsed in Samples(server, Calls(GetOp(s), n))
  {
    assert Gets(s, n)[i] == Get(s, i);
    SamplesKeep(server, Gets(s, n), Get(s, i));
  }

  /** The eleven dict keys are different, so the lists of the results dict are those of the ops. */
  lemma {:induction false} KeyInjective(a: Op, b: Op)
    requires Key(a) == Key(b)
    ensures a == b
  {
    if a.PutOp? || a.GetOp? {
      assert Key(a)[4..] == SizeName(a.size);
    }
    if b.PutOp? || b.GetOp? {
      assert Key(b)[4..] == SizeName(b.size);
    }
    assert Key(a)[0] == Key(b)[0];
  }
}
