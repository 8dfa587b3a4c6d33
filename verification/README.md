# uptime_exporter: a Dafny model of the probing core

uptime_exporter is a Prometheus exporter. On every scrape it sends one HTTP
request to each configured endpoint. It decides from the status code whether
the endpoint is up, and reports two gauges per endpoint: `uptime_is_up` (0 or 1)
and `uptime_latency_seconds`. Both carry the labels `endpoint_name` and
`endpoint_address`. Before probing, the configured endpoints are preprocessed:
each endpoint's TLS material (a CA pool and a client certificate) is read from
files and parsed.

This project models that core in four modules:

- `Wrappers` (wrappers.dfy): `Option` and `Result`. They stand for Go's nil
  pointers and its `(value, error)` pairs.
- `StatusMatch` (status_match.dfy): `checkStatusCode`. `Itoa` renders the code
  in decimal as `strconv.Itoa` does, and `ParseInt` reads it back. `Matches`
  is the declarative matching rule. The method `CheckStatusCode` follows the
  source: an exact-equality fast path, a length check, and a loop with an `ok`
  flag and an early `break`. It is proved equal to `Matches`.
- `Config` (config.dfy): `processConfiguration` and the records it maps
  between. File reads and certificate parsing are oracles. The file system is
  a `map` from readable paths to their bytes. `Crypto` holds two decision
  functions: "this PEM data holds a certificate" and "these two files form a
  valid key pair". `ProcessAll` is the specification. The method
  `ProcessConfiguration` has the source's loop, appends and early returns, and
  is proved equal to `ProcessAll`.
- `Exporter` (exporter.dfy): the body of `Collect`. Each endpoint gets one
  abstract `Outcome`: the request could not be built, the client returned an
  error, or a response arrived with a status code and an elapsed time.
  `ProbeEndpoint` follows one goroutine step by step. `Collect` runs the probes
  in turn and appends what each one sends. Lemmas show that probing the
  same endpoints, with the same outcomes, in any order sends the same
  multiset of records, and that one endpoint's outcome does not change what
  the other endpoints send.

The model follows the code as written, including where it departs from the
evident design intent:

- The up/down decision is inverted. exporter.go:138 sets `isUpValue` to true
  when the code does NOT match the pattern. So without `InverseStatus`, a
  matching code is reported as down (0) and a non-matching code as up (1).
  `IsUpAsWritten` and `StatusScenario` state this: with pattern "2xx", a 503
  gives 1 and a 204 gives 0.
- A failed request sends no metrics at all. It does not send a "down" record.
  A request that cannot be built and a transport error both end the goroutine
  before anything is sent (exporter.go:115-118, 131-135).
- The pattern may have any length. Any pattern whose length differs from the
  code's decimal form is simply rejected.
- main.go hands the raw configured endpoints to the exporter and never calls
  `processConfiguration`. That wiring is not modelled.

A failed preprocessing returns `Failure(error)`, which carries no list. So no
partial result can be observed. This matches Go's `return nil, err`.

## Model

| member | source | states |
|---|---|---|
| StatusMatch.NatToStringDigits | exporter.go:174 | the decimal form of a natural number is a non-empty string of digits with no leading zero |
| StatusMatch.ItoaShape | exporter.go:174 | the decimal form of a code is non-empty, starts with a digit exactly when the code is non-negative, and continues with digits only |
| StatusMatch.NatToStringRoundTrip | exporter.go:174 | reading back the digits of a natural number gives the number: the rendering loses nothing |
| StatusMatch.ItoaRoundTrip | exporter.go:174 | `strconv.Itoa` output is a sign and digits, and parsing it gives back the code |
| StatusMatch.ThreeDigitItoa | exporter.go:174 | a three-digit status code is rendered as exactly its hundreds, tens and units digits |
| StatusMatch.CheckStatusCode | exporter.go:173-201 | the fast path, length check and early-break loop return true exactly when the pattern matches (same length, every position 'x' or equal); an equal string gives true, a length mismatch false |
| StatusMatch.MatchesThreeDigit | exporter.go:186-200 | for a three-digit code: a match iff the pattern has length 3 and each position is 'x' or that digit of the code |
| StatusMatch.UppercaseXIsLiteral | exporter.go:188 | only lowercase 'x' is a wildcard: a pattern with an uppercase 'X' never matches a non-negative code |
| StatusMatch.MatcherExamples | exporter.go:173-201 | 204 and 200 match "2xx" and "200"; 404 does not match "2xx"; 200 does not match "20" or "2XX" |
| Config.PrepareEndpoint | config.go:73-122 | fails iff the CA file is configured and unreadable or holds no certificate, or both client paths are set and a file is unreadable or the pair is invalid; a CA failure decides the error; on success all scalar fields are copied, the root pool exists iff a CA path is set and holds that file, and there is exactly one client certificate (built from the two files) iff both paths are set, none otherwise |
| Config.PrefixFailure | config.go:72-105 | once an endpoint fails, the whole call fails with that error, whatever the later endpoints |
| Config.ProcessAllSuccess | config.go:69-125 | the call succeeds iff every endpoint prepares successfully; the result then has one entry per endpoint, in input order, each the preparation of its own endpoint |
| Config.ProcessAllFirstError | config.go:72-105 | when endpoint k is the first to fail, the call returns exactly endpoint k's error |
| Config.NoTlsFilesAlwaysSucceeds | config.go:76-125 | with no CA path and at most one client path per endpoint, preprocessing succeeds for any files and parsers, with no root pool and no client certificate |
| Config.ProcessConfiguration | config.go:69-126 | the loop with appends and early error returns computes exactly `ProcessAll` |
| Exporter.ClientTimeoutNanos | exporter.go:121 | the uint64 product and the conversion to a signed Duration never wrap for a 16-bit timeout: the client timeout is exactly Timeout times 10^9 ns |
| Exporter.IsUpAsWritten | exporter.go:137-144 | as written, the endpoint is up exactly when the match result equals the inversion flag; without inversion, up is the negation of the match |
| Exporter.InverseStatusFlipsOnce | exporter.go:142-144 | setting `InverseStatus` flips the decision exactly once |
| Exporter.Gauge | exporter.go:146-149 | the gauge value is always 0 or 1, and 1 exactly when the decision is up |
| Exporter.EndpointMetricsShape | exporter.go:114-164 | a failed probe sends nothing; a probe that got a response sends exactly `is_up` then `latency_seconds`, both labelled with its name and address; `is_up` is 0 or 1, and 1 iff the match equals the inversion flag; the latency is the elapsed time |
| Exporter.ProbeEndpoint | exporter.go:110-166 | the goroutine body's step-by-step updates of `isUpValue` and `isUpResult`, and its early returns, send exactly the records of `EndpointMetrics` |
| Exporter.Collect | exporter.go:100-170 | probing the endpoints one after another sends exactly each endpoint's records, endpoint after endpoint |
| Exporter.CollectCount | exporter.go:114-164 | a scrape sends exactly two records per endpoint that got a response |
| Exporter.CollectMembership | exporter.go:109-167 | a record is sent iff some endpoint's own probe sends it |
| Exporter.CollectAnyOrder | exporter.go:106-169 | probing the same (endpoint, outcome) pairs in any order, as the goroutines may finish, sends the same multiset of records |
| Exporter.CollectIsolation | exporter.go:114-135 | changing one endpoint's outcome, for example to an error, changes only that endpoint's records; all others are sent unchanged |
| Exporter.StatusScenario | exporter.go:137-149 | with pattern "2xx" and no inversion, a 503 reports 1 and a 204 reports 0; inversion swaps them |

## Left out

- main.go: flag parsing, configuration loading, the `/` and `/health` pages, the HTTP server, signal handling and shutdown. All of this is service plumbing.
- Concurrency in `Collect`: the goroutines, the `WaitGroup`, the cancellable context and the channel. The probes run in sequence, and the records form a sequence. `CollectAnyOrder` shows that any other order of the probes sends the same multiset of records. The interleaving of single records from different goroutines is not modelled.
- The HTTP client, transport and TLS handshake (exporter.go:120-131). Their result for each endpoint is an input `Outcome`. Of the client's construction, only the timeout conversion is modelled.
- Whether `http.NewRequestWithContext` accepts a method and address. This is library code; the `RequestError` outcome stands for its failure.
- The latency value: `time.Since(start).Seconds()` is a wall-clock float64. The model takes it as the real-valued `elapsedSeconds` of the outcome.
- Error logging through onelog (exporter.go:116, 133).
- Prometheus `Describe`, the metric descriptors and `MustNewConstMetric`. The metric names are kept as `MetricKind.FullName`.
- The internals of `os.ReadFile`, `AppendCertsFromPEM` and `tls.X509KeyPair`. They are oracles. A CA pool is represented by the PEM bytes it was built from, and a client certificate by the two files' contents.
- The text of wrapped library errors (`err.Error()`). Each `ConfigError` keeps the error's kind and the path involved.
- Go strings are byte strings. The model uses one `char` per byte, which is exact for the ASCII digits, 'x' and the patterns the configuration uses.
