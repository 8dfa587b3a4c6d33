/** One scrape of the exporter (`Collect` in exporter.go). The source probes
    every endpoint in its own goroutine; here the endpoints are visited in
    turn, and what the network did for each endpoint is an input: one
    `Outcome` per endpoint. The metrics sent on the channel become a
    sequence that each probe appends to; `CollectAnyOrder` shows that
    probing the endpoints in any other order sends the same multiset of
    records. */
module Exporter {
  import opened Config
  import opened StatusMatch

  const Namespace: string := "uptime"

  datatype MetricKind = IsUp | LatencySeconds {
    /** The metric's fully qualified name, as `prometheus.BuildFQName` forms it. */
    function FullName(): string {
      Namespace + "_" + (if IsUp? then "is_up" else "latency_seconds")
    }
  }

  /** One gauge sample, labelled with `endpoint_name` and `endpoint_address`. */
  datatype Metric = Metric(kind: MetricKind, endpointName: string, endpointAddress: string, value: real)

  /** What happened to one endpoint's request in one scrape: the request could
      not be built, the HTTP client returned an error, or a response arrived,
      `elapsedSeconds` after the scrape began. */
  datatype Outcome =
    | RequestError(message: string)
    | TransportError(message: string)
    | Response(statusCode: int, elapsedSeconds: real)

  const NanosPerSecond: int := 1_000_000_000
  const TwoTo63: int := 0x8000_0000_0000_0000
  const TwoTo64: int := 0x1_0000_0000_0000_0000

  /** The client timeout `time.Duration(uint64(endpoint.Timeout) * 1e+9)`:
      the product is taken modulo 2^64 and read back as a signed 64-bit
      count of nanoseconds. For a 16-bit timeout neither step changes the
      value: the timeout is exactly that many seconds. */
  function ClientTimeoutNanos(timeout: uint16): (ns: int)
    ensures ns == timeout as int * NanosPerSecond
    ensures 0 <= ns < TwoTo63
  {
    var product := (timeout as int * NanosPerSecond) % TwoTo64;
    if product < TwoTo63 then product else product - TwoTo64
  }

  /** The up/down decision of exporter.go as written: `isUpValue` starts
      false and is set to true when the code does NOT match the pattern,
      then flipped when `InverseStatus` is set. */
  function IsUpValue(matched: bool, inverseStatus: bool): bool {
    var isUpValue := !matched;
    if inverseStatus then !isUpValue else isUpValue
  }

  /** Closed form of the decision: up exactly when the match result equals
      the inversion flag, so without inversion a matching code is down. */
  lemma IsUpAsWritten(matched: bool, inverseStatus: bool)
    ensures IsUpValue(matched, inverseStatus) <==> matched == inverseStatus
    ensures !inverseStatus ==> IsUpValue(matched, inverseStatus) == !matched
  {
  }

  /** The inversion flag flips the decision exactly once. */
  lemma InverseStatusFlipsOnce(matched: bool)
    ensures IsUpValue(matched, true) == !IsUpValue(matched, false)
  {
  }

  /** The 0/1 encoding of the decision as a gauge value. */
  function Gauge(up: bool): (v: real)
    ensures v == 0.0 || v == 1.0
    ensures v == 1.0 <==> up
  {
    if up then 1.0 else 0.0
  }

  /** What one probe sends: nothing after an error, otherwise `is_up` then
      `latency_seconds`. */
  function EndpointMetrics(e: PreprocessedEndpoint, o: Outcome): seq<Metric> {
    match o
    case Response(code, elapsed) =>
      var up := IsUpValue(Matches(code, e.successfulStatusCode), e.inverseStatus);
      [Metric(IsUp, e.name, e.address, Gauge(up)), Metric(LatencySeconds, e.name, e.address, elapsed)]
    case _ => []
  }

  /** A probe that got a response sends exactly two records, `is_up` (0 or 1,
      1 exactly when the match result equals the inversion flag) and then
      `latency_seconds` (the elapsed time), both labelled with the endpoint's
      name and address; a probe that failed sends nothing. */
  lemma EndpointMetricsShape(e: PreprocessedEndpoint, o: Outcome)
    ensures var r := EndpointMetrics(e, o);
      && (|r| == 2 <==> o.Response?)
      && (!o.Response? ==> r == [])
      && (o.Response? ==>
        && r[0].kind == IsUp && r[1].kind == LatencySeconds
        && r[0].endpointName == e.name && r[0].endpointAddress == e.address
        && r[1].endpointName == e.name && r[1].endpointAddress == e.address
        && (r[0].value == 0.0 || r[0].value == 1.0)
        && (r[0].value == 1.0 <==> Matches(o.statusCode, e.successfulStatusCode) == e.inverseStatus)
        && r[1].value == o.elapsedSeconds)
  {
    if o.Response? {
      IsUpAsWritten(Matches(o.statusCode, e.successfulStatusCode), e.inverseStatus);
    }
  }

  /** The body of one probe goroutine: give up silently on an error,
      otherwise decide up or down step by step and send the two metrics. */
  method ProbeEndpoint(endpoint: PreprocessedEndpoint, outcome: Outcome) returns (emitted: seq<Metric>)
    ensures emitted == EndpointMetrics(endpoint, outcome)
  {
    emitted := [];
    if outcome.RequestError? {
      return;
    }
    if outcome.TransportError? {
      return;
    }

    var isUpValue := false;
    var matched := CheckStatusCode(outcome.statusCode, endpoint.successfulStatusCode);
    if !matched {
      isUpValue := true;
    }
    if endpoint.inverseStatus {
      isUpValue := !isUpValue;
    }

    var isUpResult := 0.0;
    if isUpValue {
      isUpResult := 1.0;
    }

    emitted := emitted + [Metric(IsUp, endpoint.name, endpoint.address, isUpResult)];
    emitted := emitted + [Metric(LatencySeconds, endpoint.name, endpoint.address, outcome.elapsedSeconds)];
  }

  /** Record batches sent one after the other. */
  function Flatten<T>(batches: seq<seq<T>>): seq<T> {
    if batches == [] then []
    else Flatten(batches[..|batches| - 1]) + batches[|batches| - 1]
  }

  /** Flattening distributes over concatenation. */
  lemma {:induction false} FlattenConcat<T>(a: seq<seq<T>>, b: seq<seq<T>>)
    ensures Flatten(a + b) == Flatten(a) + Flatten(b)
  {
    if b == [] {
      assert a + b == a;
    } else {
      var n := |b| - 1;
      assert (a + b)[..|a| + n] == a + b[..n];
      FlattenConcat(a, b[..n]);
    }
  }

  /** A record is in the flattening exactly when it is in some batch. */
  lemma {:induction false} FlattenMembership<T>(batches: seq<seq<T>>, m: T)
    ensures m in Flatten(batches) <==> exists i :: 0 <= i < |batches| && m in batches[i]
  {
    if batches != [] {
      var n := |batches| - 1;
      var init := batches[..n];
      FlattenMembership(init, m);
      assert forall i :: 0 <= i < n ==> init[i] == batches[i];
    }
  }

  /** Replacing one batch replaces its records and leaves all others. */
  lemma FlattenUpdate<T>(batches: seq<seq<T>>, j: nat, batch: seq<T>)
    requires j < |batches|
    ensures multiset(Flatten(batches[j := batch])) + multiset(batches[j])
         == multiset(Flatten(batches)) + multiset(batch)
  {
    var before, after := batches[..j], batches[j + 1..];
    assert batches == before + [batches[j]] + after;
    assert batches[j := batch] == before + [batch] + after;
    FlattenConcat(before + [batches[j]], after);
    FlattenConcat(before + [batch], after);
    FlattenConcat(before, [batches[j]]);
    FlattenConcat(before, [batch]);
    assert [batches[j]][..0] == [] && [batch][..0] == [];
  }

  /** The batch each endpoint's probe sends, in endpoint order. */
  function Probes(endpoints: seq<PreprocessedEndpoint>, outcomes: seq<Outcome>): (batches: seq<seq<Metric>>)
    requires |outcomes| == |endpoints|
    ensures |batches| == |endpoints|
    ensures forall i :: 0 <= i < |endpoints| ==> batches[i] == EndpointMetrics(endpoints[i], outcomes[i])
  {
    seq(|endpoints|, i requires 0 <= i < |endpoints| => EndpointMetrics(endpoints[i], outcomes[i]))
  }

  /** Everything one scrape sends: each endpoint's records, endpoint after
      endpoint. */
  function CollectSpec(endpoints: seq<PreprocessedEndpoint>, outcomes: seq<Outcome>): seq<Metric>
    requires |outcomes| == |endpoints|
  {
    Flatten(Probes(endpoints, outcomes))
  }

  /** `Collect`: one probe per endpoint, each appending what it sends. */
  method Collect(endpoints: seq<PreprocessedEndpoint>, outcomes: seq<Outcome>) returns (emitted: seq<Metric>)
    requires |outcomes| == |endpoints|
    ensures emitted == CollectSpec(endpoints, outcomes)
  {
    ghost var batches := Probes(endpoints, outcomes);
    emitted := [];
    for i := 0 to |endpoints|
      invariant emitted == Flatten(batches[..i])
    {
      var sent := ProbeEndpoint(endpoints[i], outcomes[i]);
      assert batches[..i + 1][..i] == batches[..i];
      emitted := emitted + sent;
    }
    assert batches[..|endpoints|] == batches;
  }

  /** The number of endpoints that got a response. */
  function Responded(outcomes: seq<Outcome>): nat {
    if outcomes == [] then 0
    else Responded(outcomes[..|outcomes| - 1]) + (if outcomes[|outcomes| - 1].Response? then 1 else 0)
  }

  /** Exactly two records per endpoint that got a response, none for the
      others. */
  lemma {:induction false} CollectCount(endpoints: seq<PreprocessedEndpoint>, outcomes: seq<Outcome>)
    requires |outcomes| == |endpoints|
    ensures |CollectSpec(endpoints, outcomes)| == 2 * Responded(outcomes)
  {
    if endpoints != [] {
      var n := |endpoints| - 1;
      CollectCount(endpoints[..n], outcomes[..n]);
      assert Probes(endpoints, outcomes)[..n] == Probes(endpoints[..n], outcomes[..n]);
      EndpointMetricsShape(endpoints[n], outcomes[n]);
    }
  }

  /** A record is sent exactly when some endpoint's own probe sends it. */
  lemma CollectMembership(endpoints: seq<PreprocessedEndpoint>, outcomes: seq<Outcome>, m: Metric)
    requires |outcomes| == |endpoints|
    ensures m in CollectSpec(endpoints, outcomes) <==>
      exists i :: 0 <= i < |endpoints| && m in EndpointMetrics(endpoints[i], outcomes[i])
  {
    FlattenMembership(Probes(endpoints, outcomes), m);
  }

  /** Applies `f` to every element, in order. */
  function MapSeq<A, B>(f: A -> B, s: seq<A>): (r: seq<B>)
    ensures |r| == |s| && forall i :: 0 <= i < |s| ==> r[i] == f(s[i])
  {
    seq(|s|, i requires 0 <= i < |s| => f(s[i]))
  }

  /** Mapping distributes over concatenation. */
  lemma MapSeqConcat<A, B>(f: A -> B, a: seq<A>, b: seq<A>)
    ensures MapSeq(f, a + b) == MapSeq(f, a) + MapSeq(f, b)
  {
    assert forall i :: 0 <= i < |a + b| ==> (a + b)[i] == if i < |a| then a[i] else b[i - |a|];
  }

  /** Taking one element out of a sequence takes its image out of the
      mapped sequence. */
  lemma MapSeqRemove<A, B>(f: A -> B, s: seq<A>, k: nat)
    requires k < |s|
    ensures multiset(MapSeq(f, s)) == multiset(MapSeq(f, s[..k] + s[k + 1..])) + multiset{f(s[k])}
  {
    var before, after := s[..k], s[k + 1..];
    assert s == before + [s[k]] + after;
    MapSeqConcat(f, before + [s[k]], after);
    MapSeqConcat(f, before, [s[k]]);
    MapSeqConcat(f, before, after);
    assert MapSeq(f, [s[k]]) == [f(s[k])];
  }

  /** Mapping two rearrangements of the same elements gives two
      rearrangements of the same images. */
  lemma {:induction false} MapSeqMultiset<A, B>(f: A -> B, s1: seq<A>, s2: seq<A>)
    requires multiset(s1) == multiset(s2)
    ensures multiset(MapSeq(f, s1)) == multiset(MapSeq(f, s2))
    decreases |s1|
  {
    if s1 == [] {
      assert |s2| == |multiset(s2)| == 0;
    } else {
      var n := |s1| - 1;
      var x := s1[n];
      assert x in multiset(s2) by {
        assert s1 == s1[..n] + [x];
      }
      var k :| 0 <= k < |s2| && s2[k] == x;
      var rest := s2[..k] + s2[k + 1..];
      assert multiset(s1[..n]) == multiset(rest) by {
        assert s1 == s1[..n] + [x];
        assert s2 == s2[..k] + [x] + s2[k + 1..];
        assert multiset(s1) == multiset(s1[..n]) + multiset{x};
        assert multiset(s2) == multiset(rest) + multiset{x};
        assert multiset(s1[..n]) == multiset(s1) - multiset{x};
      }
      MapSeqMultiset(f, s1[..n], rest);
      MapSeqRemove(f, s2, k);
      MapSeqRemove(f, s1, n);
      assert s1[..n] + s1[n + 1..] == s1[..n];
    }
  }

  /** Taking one batch out of the list takes its records out of the
      flattening. */
  lemma FlattenRemove<T>(before: seq<seq<T>>, x: seq<T>, after: seq<seq<T>>)
    ensures multiset(Flatten(before + [x] + after)) == multiset(Flatten(before + after)) + multiset(x)
  {
    FlattenConcat(before + [x], after);
    FlattenConcat(before, [x]);
    FlattenConcat(before, after);
    assert [x][..0] == [];
  }

  /** The records of a list of batches depend only on which batches there
      are, not on their order. */
  lemma {:induction false} FlattenPermutation<T>(b1: seq<seq<T>>, b2: seq<seq<T>>)
    requires multiset(b1) == multiset(b2)
    ensures multiset(Flatten(b1)) == multiset(Flatten(b2))
    decreases |b1|
  {
    if b1 == [] {
      assert |b2| == |multiset(b2)| == 0;
    } else {
      var n := |b1| - 1;
      var x := b1[n];
      assert x in multiset(b2) by {
        assert b1 == b1[..n] + [x];
      }
      var k :| 0 <= k < |b2| && b2[k] == x;
      var rest := b2[..k] + b2[k + 1..];
      assert multiset(b1[..n]) == multiset(rest) by {
        assert b1 == b1[..n] + [x];
        assert b2 == b2[..k] + [x] + b2[k + 1..];
        assert multiset(b1) == multiset(b1[..n]) + multiset{x};
        assert multiset(b2) == multiset(rest) + multiset{x};
        assert multiset(b1[..n]) == multiset(b1) - multiset{x};
      }
      FlattenPermutation(b1[..n], rest);
      FlattenRemove(b2[..k], x, b2[k + 1..]);
      FlattenRemove(b1[..n], x, []);
      assert b1[..n] + [x] + [] == b1 && b1[..n] + [] == b1[..n];
      assert b2[..k] + [x] + b2[k + 1..] == b2;
    }
  }

  /** Each endpoint paired with what happened to its request: what one
      goroutine owns. */
  function Pairs(endpoints: seq<PreprocessedEndpoint>, outcomes: seq<Outcome>): (r: seq<(PreprocessedEndpoint, Outcome)>)
    requires |outcomes| == |endpoints|
    ensures |r| == |endpoints| && forall i :: 0 <= i < |endpoints| ==> r[i] == (endpoints[i], outcomes[i])
  {
    seq(|endpoints|, i requires 0 <= i < |endpoints| => (endpoints[i], outcomes[i]))
  }

  /** The goroutines may finish in any order: probing the same endpoints,
      with the same outcomes, in any other order sends the same multiset of
      records. */
  lemma CollectAnyOrder(e1: seq<PreprocessedEndpoint>, o1: seq<Outcome>, e2: seq<PreprocessedEndpoint>, o2: seq<Outcome>)
    requires |o1| == |e1| && |o2| == |e2|
    requires multiset(Pairs(e1, o1)) == multiset(Pairs(e2, o2))
    ensures multiset(CollectSpec(e1, o1)) == multiset(CollectSpec(e2, o2))
  {
    var probe := (p: (PreprocessedEndpoint, Outcome)) => EndpointMetrics(p.0, p.1);
    assert Probes(e1, o1) == MapSeq(probe, Pairs(e1, o1));
    assert Probes(e2, o2) == MapSeq(probe, Pairs(e2, o2));
    MapSeqMultiset(probe, Pairs(e1, o1), Pairs(e2, o2));
    FlattenPermutation(Probes(e1, o1), Probes(e2, o2));
  }

  /** A probe that fails, or succeeds differently, changes only its own
      endpoint's records: every other endpoint sends the same records. */
  lemma CollectIsolation(endpoints: seq<PreprocessedEndpoint>, outcomes: seq<Outcome>, j: nat, o: Outcome)
    requires |outcomes| == |endpoints| && j < |endpoints|
    ensures multiset(CollectSpec(endpoints, outcomes[j := o])) + multiset(EndpointMetrics(endpoints[j], outcomes[j]))
         == multiset(CollectSpec(endpoints, outcomes)) + multiset(EndpointMetrics(endpoints[j], o))
  {
    var batches := Probes(endpoints, outcomes);
    assert Probes(endpoints, outcomes[j := o]) == batches[j := EndpointMetrics(endpoints[j], o)];
    FlattenUpdate(batches, j, EndpointMetrics(endpoints[j], o));
  }

  /** The scenario of an endpoint expecting "2xx" whose server answers 503,
      and one whose server answers 204: because of the negation at
      exporter.go:138, the failing server is reported up and the healthy one down,
      unless the status is inverted. */
  lemma StatusScenario(e: PreprocessedEndpoint, elapsed: real)
    requires e.successfulStatusCode == "2xx"
    ensures EndpointMetrics(e, Response(503, elapsed))[0].value == (if e.inverseStatus then 0.0 else 1.0)
    ensures EndpointMetrics(e, Response(204, elapsed))[0].value == (if e.inverseStatus then 1.0 else 0.0)
  {
    EndpointMetricsShape(e, Response(503, elapsed));
    EndpointMetricsShape(e, Response(204, elapsed));
    MatchesThreeDigit(503, "2xx");
    MatchesThreeDigit(204, "2xx");
  }
}
