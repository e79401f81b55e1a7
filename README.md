# S3 benchmark client: request signing, URL split, sample recording and p99

This project models the core of `benchmark.py`, a script that measures how fast S3-compatible servers handle requests. It covers four pieces:

- **`sign_request`**: builds the AWS Signature Version 4 headers for one request, with the region fixed to `us-east-1` and the service to `s3`. Modelled in `signer.dfy` (module `Signer`).
  - The canonical request, credential scope, string-to-sign and four-step signing-key chain are modelled.
  - So is the `Authorization` value.
  - The clock is not read: the timestamp arrives as the two strings `amzDate` and `dateStamp`.
  - SHA-256, HMAC-SHA256 and `str.encode()` are library calls. They arrive as the three functions of a `Crypto` value, and nothing is known about them except that a digest is 32 bytes.
  - `hexdigest()` is modelled, in `hex.dfy`.
- **The path/query split at the top of `request`**: `url.dfy`, module `Url`.
- **The recording loops of `benchmark`**: `runner.dfy`, module `Runner`. This is an imperative method that keeps a dict of sample lists and appends to them in nested loops.
  - The server and the clock are a function from each request of the run to the status, body length and elapsed time it produced.
  - Every request of a run is a different `Call` value, because each carries its own object name or iteration number. So one such function describes any run.
- **The p99 choice in `print_results`**: `report.dfy`, module `Report`.

Shared pieces:
- Python's `sorted` (Timsort) is modelled by a stable insertion sort under the same comparison (`sorting.dfy`). Under a total preorder every stable sort gives the same sequence, so the choice of algorithm does not change the result. That equivalence is not proved here.
- `str` ordering, `in`, `split` and `join` are in `strings.dfy`, together with the first-occurrence search behind `url.split("://", 1)`.

The returned header dict is kept as its items in insertion order (`seq<Header>`). The results dict of `benchmark` is a map from `Op` values; `Runner.Key` renders each one as the Python key (`put_1kb` and so on), and `Runner.KeyInjective` shows the eleven keys are distinct.

Three facts about the code shape the model:
- The `create_bucket` sample is appended whatever the status (benchmark.py:98). This happens before the 200/409 check, so a 409 "already exists" answer is timed too.
- No count of failed requests is kept. The only count is the length of each list of successes.
- The p99 value is the element at index `int(n * 0.99)` of the sorted list when there are more than ten samples, and the maximum for ten or fewer, multiplied by 1000 to give milliseconds. The model returns the chosen sample in seconds (see `Report.P99` under "## Left out").

## Model

| member | source | states |
|---|---|---|
| Sorting.Sort | benchmark.py:26-29 | `sorted`: the result has the input's elements, each as often (same multiset, same length); `SortSorted` shows it is in order and `SortOfSorted` that ordered input is returned unchanged |
| Sorting.SortSorted | benchmark.py:26-29 | `sorted` output is in order under any total preorder; with `Sort`'s own contract it is a permutation of the input (same multiset, same length) |
| Sorting.SortOfSorted | benchmark.py:29 | sorting a list that is already in order leaves it unchanged |
| Sorting.SortedArrangementUnique | benchmark.py:26-27 | a strictly ordered list is the only ordered arrangement of its elements, so the result of sorting does not depend on the input order |
| Strings.LexLe | benchmark.py:26-29 | Python's `<=` on str, the comparison behind every `sorted` of strings; `LexLeTotalPreorder` and `LexLeAntisymmetric` state its order properties |
| Strings.LexLeTotalPreorder | benchmark.py:26-29 | Python's `<=` on str (code-point order, prefix first) is total and transitive |
| Strings.LexLeAntisymmetric | benchmark.py:26-29 | two strings each `<=` the other are equal |
| Strings.IndexOf | benchmark.py:49-51 | the position of the first occurrence of a character: it is there, and not before |
| Strings.FindSub | benchmark.py:49 | the first-occurrence search behind `url.split("://", 1)`: the first position where the pattern occurs, or None exactly when it occurs nowhere |
| Strings.Split | benchmark.py:29 | `split` on one character: at least one part, no part contains the separator, and more than one part exactly when the separator occurs |
| Strings.Join | benchmark.py:26-30 | `sep.join(parts)`; `JoinSplit` and `SplitJoin` make it the inverse of `Split`, and `JoinFlatten` lets a joined group sit in place inside a larger join |
| Strings.JoinSplit | benchmark.py:29 | joining the parts of a split with the same separator gives back the string |
| Strings.SplitJoin | benchmark.py:29 | splitting a join recovers the parts when no part holds the separator |
| Strings.JoinFlatten | benchmark.py:30 | a joined group inside a join with the same separator equals its parts in place |
| HexEncoding.Hex | benchmark.py:19 | `hexdigest()` is two lowercase hex digits per byte |
| HexEncoding.UnhexHex | benchmark.py:19 | hex text reads back to the bytes it came from |
| HexEncoding.HexInjective | benchmark.py:42 | different digests never render as the same hex text |
| Signer.HeaderLeTotalPreorder | benchmark.py:27 | tuple order on (name, value) items is a total preorder |
| Signer.SortedHeadersAnyOrder | benchmark.py:20-27 | whatever order the three headers are inserted in, `sorted(headers.items())` is host, x-amz-content-sha256, x-amz-date |
| Signer.SortedNamesAnyOrder | benchmark.py:20-26 | whatever the insertion order, `sorted(headers.keys())` is host, x-amz-content-sha256, x-amz-date |
| Signer.HeaderNamesMatchSigned | benchmark.py:26-27 | the canonical header lines carry exactly the names of the signed-header list, in the same order |
| Signer.SignedHeaders | benchmark.py:26 | the signed-header list; `HeaderBlock` shows it is `host;x-amz-content-sha256;x-amz-date` for any insertion order |
| Signer.CanonicalHeaders | benchmark.py:27 | the header block; `HeaderBlock` shows it is the three `name:value` lines in sorted order, each ending in a newline |
| Signer.HeaderBlock | benchmark.py:20-27 | the signed-header list is `host;x-amz-content-sha256;x-amz-date`; the header block is one `name:value` line per header in that order, each ending in a newline |
| Signer.CanonicalQuery | benchmark.py:29 | the canonical query; `CanonicalQueryEmpty`, `CanonicalQueryTokens` and `CanonicalQueryIdempotent` state what it is |
| Signer.CanonicalQueryEmpty | benchmark.py:29 | the canonical query is empty exactly when the query is empty: a non-empty query, even a lone `&`, gives a non-empty result |
| Signer.CanonicalQueryTokens | benchmark.py:29 | a non-empty query canonicalises to its `&`-separated tokens, the same multiset of tokens, in sorted order |
| Signer.CanonicalQueryIdempotent | benchmark.py:29 | canonicalising a canonical query changes nothing |
| Signer.CanonicalRequest | benchmark.py:30 | the canonical request; `CanonicalRequestLayout` gives its lines and `CanonicalRequestFields` shows that they can be read back |
| Signer.CanonicalRequestLayout | benchmark.py:20-30 | for any insertion order of the headers, the canonical request has these lines joined by newlines: method, path, canonical query, the three header lines, an empty line, the signed-header list, the payload hash |
| Signer.CanonicalRequestFields | benchmark.py:30 | if no input holds a newline, splitting the canonical request at newlines gives back exactly those lines, including the empty line before the signed-header list |
| Signer.CanonicalQueryHasNoNewline | benchmark.py:29 | canonicalising a query without newlines adds none |
| Signer.PayloadHash | benchmark.py:19 | `hashlib.sha256(payload).hexdigest()`; `PayloadHashFormat` gives its format and `SignRequestHeaders` puts it in the `x-amz-content-sha256` header |
| Signer.PayloadHashFormat | benchmark.py:19 | the `x-amz-content-sha256` value is 64 lowercase hex digits |
| Signer.CredentialScope | benchmark.py:32 | `<date>/us-east-1/s3/aws4_request`; `SignRequestAuthorization` states it in full inside the Authorization value |
| Signer.StringToSign | benchmark.py:33 | the algorithm, timestamp, scope and hex SHA-256 of the canonical request, one per line; `SignRequestAuthorization` states it in full as the signed message |
| Signer.Mac | benchmark.py:35-36 | the local `sign(key, msg)`, HMAC-SHA256 of the UTF-8 message; `SignRequestAuthorization` uses it at every step of the key chain and for the signature |
| Signer.AuthorizationValue | benchmark.py:44 | the Authorization layout; `SignRequestAuthorization` states it in full |
| Signer.SigningKey | benchmark.py:35-41 | k_signing, four chained HMACs; `SignRequestAuthorization` states the chain in full as the key of the signature |
| Signer.SignRequest | benchmark.py:13-45 | `sign_request` at a given time; `SignRequestHeaders` gives the four headers and `SignRequestAuthorization` the Authorization value |
| Signer.SignRequestHeaders | benchmark.py:19-45 | the result holds four headers under four different names: `x-amz-date` = the timestamp, `x-amz-content-sha256` = hex SHA-256 of the payload, `host`, then `Authorization` |
| Signer.SignRequestAuthorization | benchmark.py:32-44 | Authorization is `AWS4-HMAC-SHA256 Credential=<ak>/<date>/us-east-1/s3/aws4_request, SignedHeaders=host;x-amz-content-sha256;x-amz-date, Signature=<sig>`; `<sig>` is the hex HMAC of `AWS4-HMAC-SHA256\n<amzDate>\n<scope>\n<hex sha256 of the canonical request>`, under the key HMAC(HMAC(HMAC(HMAC("AWS4"+secret, date), "us-east-1"), "s3"), "aws4_request") |
| Url.AfterScheme | benchmark.py:49 | `url.split("://", 1)[1]` is what follows the first "://"; None, where Python raises, exactly when there is no "://" |
| Url.UrlPath | benchmark.py:49 | what follows the first '/' after the scheme, with no '/' before it; "" when there is no '/' |
| Url.PathAndQuery | benchmark.py:50-53 | the path/query choice on the URL path; `PathShape`, `WithQuery` and `Rebuild` state what it gives |
| Url.SplitUrl | benchmark.py:49-53 | the path and query `request` signs for a URL; `BareHost`, `NoScheme`, `EndpointUrl`, `ObjectUrl`, `QueryUrl` and `ListUrl` state them for each kind of URL |
| Url.PathShape | benchmark.py:50-53 | the signed path always starts with '/'; neither the path nor the query contains a '?' |
| Url.WithQuery | benchmark.py:50-51 | with a '?', the path is '/' and the text before the first '?'; the query is the text between the first '?' and the second (or the end) |
| Url.Rebuild | benchmark.py:49-53 | path, '?' and query put back together give '/' and the URL path when it holds at most one '?' |
| Url.BareHost | benchmark.py:49-53 | a URL with no '/' after the scheme gives path "/" and query "" |
| Url.NoScheme | benchmark.py:49 | a URL without "://" has no split; in Python this raises |
| Url.EndpointUrl | benchmark.py:49-53 | for `scheme://host/<p>` (no ':' in the scheme, no '/' in the host), the path and query come from `<p>` alone |
| Url.ObjectUrl | benchmark.py:49-53 | an object URL `scheme://host/<p>` with no '?' is signed with path '/' + `<p>` and an empty query |
| Url.QueryUrl | benchmark.py:49-53 | a URL `scheme://host/<p>?<q>` with no other '?' is signed with path '/' + `<p>` and query `<q>` |
| Url.ListUrl | benchmark.py:49-53 | the listing URL `scheme://host/<bucket>?list-type=2` (benchmark.py:135) is signed with path '/' + bucket and query `list-type=2` |
| Runner.Records | benchmark.py:98-148 | which response is kept: create_bucket always (98), PUT on 200 (116), GET on 200 with the full body (127), LIST on 200 (137), DELETE on 204 (148); `SamplesSound`, `SamplesKeep`, `GetSamples` and `GetKept` tie it to the lists |
| Runner.Samples | benchmark.py:112-149 | the kept elapsed times of a list of requests, in order; `SamplesSound`, `SamplesKeep`, `SamplesComplete`, `AllKept` and `SamplesBound` state what it holds |
| Runner.RecordPhase | benchmark.py:112-117 | one recording loop appends to its list exactly the elapsed times of the kept responses, in request order, and changes no other list |
| Runner.BucketReady | benchmark.py:99 | the run goes on after bucket creation answered 200 or 409; `Benchmark` returns None exactly when it does not hold |
| Runner.Benchmark | benchmark.py:96-150 | None exactly when bucket creation answered neither 200 nor 409; otherwise all eleven lists, each holding exactly the kept samples of its requests |
| Runner.PutPhase | benchmark.py:110-118 | the PUT loops complete the four PUT lists and leave the others as they were |
| Runner.GetPhase | benchmark.py:121-129 | the GET loops complete the four GET lists and leave the others as they were |
| Runner.ListStep | benchmark.py:133-139 | the LIST loop completes the list list and leaves the others as they were |
| Runner.DeletePhase | benchmark.py:143-150 | the DELETE loops over all four sizes fill the one delete list and leave the others as they were |
| Runner.GetSamples | benchmark.py:121-128 | every sample in a GET list is the time of a GET of that size, among the first `iterations`, that answered 200 with a body of the payload's full length |
| Runner.GetKept | benchmark.py:121-128 | conversely, every such GET leaves its time in the GET list of its size |
| Runner.SamplesKeep | benchmark.py:116-148 | every response that passed its rule leaves its elapsed time among the samples |
| Runner.SamplesSound | benchmark.py:116-148 | every sample is the elapsed time of a response that passed its rule |
| Runner.SamplesComplete | benchmark.py:116-148 | the number of samples is the number of responses that passed their rule: none is dropped |
| Runner.AllKept | benchmark.py:112-117 | when every response passes, the list is every elapsed time in request order |
| Runner.SamplesBound | benchmark.py:112-117 | a list never holds more samples than requests were made for it |
| Runner.PhaseBounds | benchmark.py:110-150 | PUT, GET and LIST lists hold at most `iterations` samples; the delete list at most four times that; create_bucket one |
| Runner.SamplesAppend | benchmark.py:143-149 | the delete samples of consecutive sizes are those of each size, one after the other |
| Runner.KeyInjective | benchmark.py:69-81 | the eleven result keys are distinct |
| Report.Max | benchmark.py:168 | `max(times)` is one of the samples and no sample exceeds it |
| Report.P99Index | benchmark.py:168 | the p99 index `int(len(times) * 0.99)`, taken as exact arithmetic; `PositionInRange` shows it is a valid position |
| Report.PositionInRange | benchmark.py:168 | the p99 index `(99 * n) / 100` is a valid position for every non-empty list |
| Report.P99 | benchmark.py:168 | the p99 value; `P99IsSample`, `P99OfFew` and `P99Rank` state what it is |
| Report.P99IsSample | benchmark.py:168 | p99 is always one of the samples |
| Report.P99OfFew | benchmark.py:168 | for ten samples or fewer, no sample exceeds p99 |
| Report.P99Rank | benchmark.py:168 | for more than ten samples, p99 has rank `(99 * n) / 100`: at most that many samples lie below it, and more than that many lie at or below it, whatever the recording order |
| Report.CountsOfPermutation | benchmark.py:168 | counts of samples below or at a value do not depend on the order of the samples |

## Left out

- HTTP transport (benchmark.py:57-64) is network I/O and is not modelled. This includes:
  - the request object;
  - `urlopen` with its 30-second timeout;
  - the mapping of HTTP errors to status and body;
  - the status-0 fallback.

  The server is the `server` function of `Runner`.
- The internals of SHA-256, HMAC and UTF-8 encoding are library code; they are the fields of `Signer.Crypto`. Because they stay uninterpreted, two properties cannot be proved:
  - a signature changes when the timestamp or the payload changes;
  - a verifier accepts the signature.
  `request` has no verifier anyway.
- `datetime.now`/`strftime` (benchmark.py:14-16) and `time.perf_counter` are clock reads. The timestamps are parameters, and the elapsed times come from the `server` function. Nothing ties `dateStamp` to the first eight characters of `amzDate`.
- The `host` derivation by `endpoint.replace` (benchmark.py:67) is not modelled, and neither are the object URLs built with f-strings. The requests are `Runner.Call` values. `Url.ObjectUrl` and `Url.ListUrl` cover the URL shapes they have.
- `data if data else b""` (benchmark.py:54) is not modelled: the signer takes the payload bytes directly.
- Warmup requests (benchmark.py:104-107) and the final bucket deletion (benchmark.py:153) are left out, because their results are discarded.
- The printing and the `len(...)` progress output in `benchmark` are left out, as are `print_results`' mean, median and ops/sec (benchmark.py:166-170) and all of `main` (benchmark.py:172-217), including the speedup ratio. These are output formatting and floating-point statistics.
- Report.P99Index: `int(len(times) * 0.99)` is computed in floating point; the model uses the exact `(99 * n) / 100`. The two agree wherever the float product does not round across an integer. That equivalence is not proved here.
- Report.P99: samples are `real`, so NaN and the other special float values are not modelled.
- Report.P99: the conversion to milliseconds (`* 1000` on benchmark.py:168) is left out, and the model returns the chosen sample in seconds. The conversion is a float multiplication that keeps order, so it does not change which sample is chosen.
- `sign_request` returns the headers of a Python dict. The model keeps its items in insertion order and shows that the four names are distinct (Signer.SignRequestHeaders). It does not use a map.
- The `results` dict is keyed by `Runner.Op` rather than by strings. `Runner.Key` gives the string keys, and `Runner.KeyInjective` shows that nothing is lost.
- Url.SplitUrl: Python raises IndexError for a URL without "://", and the model returns None instead. The exception path in `main` is not modelled.
