/**
 * `sign_request`: AWS Signature Version 4 headers for one S3 request, with the region
 * fixed to us-east-1 and the service to s3.
 *
 * The clock is not read: the caller passes the timestamp as `amzDate` (YYYYMMDDTHHMMSSZ)
 * and `dateStamp` (YYYYMMDD). SHA-256, HMAC-SHA256 and UTF-8 encoding are library calls
 * and arrive as the fields of a `Crypto` value; nothing is assumed about them beyond the
 * 32-byte digest size.
 */
module Signer {
  import opened Strings
  import opened HexEncoding
  import Sorting

  type Digest = s: seq<Byte> | |s| == 32 witness seq(32, _ => 0)

  /** `hashlib.sha256(m).digest()`, `hmac.new(k, m, hashlib.sha256).digest()` and `str.encode()`. */
  datatype Crypto = Crypto(
    sha256: seq<Byte> -> Digest,
    hmacSha256: (seq<Byte>, seq<Byte>) -> Digest,
    utf8: string -> seq<Byte>)

  const Algorithm: string := "AWS4-HMAC-SHA256"
  const Region: string := "us-east-1"
  const Service: string := "s3"
  const Terminator: string := "aws4_request"

  /** A header as a (name, value) item of the Python dict. */
  type Header = (string, string)

  /** Python's `<=` on a (str, str) tuple: by name, then by value. */
  predicate HeaderLe(a: Header, b: Header)
  {
    (LexLe(a.0, b.0) && a.0 != b.0) || (a.0 == b.0 && LexLe(a.1, b.1))
  }

  lemma {:induction false} HeaderLeTotalPreorder()
    ensures Sorting.TotalPreorder(HeaderLe)
  {
    forall a: Header, b: Header ensures HeaderLe(a, b) || HeaderLe(b, a) {
      LexLeTotal(a.0, b.0);
      LexLeTotal(a.1, b.1);
    }
    forall a: Header, b: Header, c: Header | HeaderLe(a, b) && HeaderLe(b, c) ensures HeaderLe(a, c) {
      if a.0 == b.0 && b.0 == c.0 {
        LexLeTransitive(a.1, b.1, c.1);
      } else if a.0 == b.0 {
        assert LexLe(b.0, c.0) && b.0 != c.0;
      } else if b.0 == c.0 {
        assert LexLe(a.0, b.0) && a.0 != b.0;
      } else {
        LexLeTransitive(a.0, b.0, c.0);
        if a.0 == c.0 {
          LexLeAntisymmetric(a.0, b.0);
        }
      }
    }
  }

  /** `hashlib.sha256(payload).hexdigest()` */
  function PayloadHash(c: Crypto, payload: seq<Byte>): string
  {
    Hex(c.sha256(payload))
  }

  /** The headers dict before signing, in the order the source inserts them. */
  function BaseHeaders(amzDate: string, payloadHash: string, host: string): seq<Header>
  {
    [("x-amz-date", amzDate), ("x-amz-content-sha256", payloadHash), ("host", host)]
  }

  function Names(hs: seq<Header>): seq<string>
  {
    seq(|hs|, i requires 0 <= i < |hs| => hs[i].0)
  }

  /** One `name:value` line per header, each ending in a newline. */
  function Lines(hs: seq<Header>): seq<string>
  {
    seq(|hs|, i requires 0 <= i < |hs| => hs[i].0 + ":" + hs[i].1 + "\n")
  }

  /** `";".join(sorted(headers.keys()))` */
  function SignedHeaders(hs: seq<Header>): string
  {
    Join(Sorting.Sort(Names(hs), LexLe), ";")
  }

  /** `"".join(f"{k}:{v}\n" for k, v in sorted(headers.items()))` */
  function CanonicalHeaders(hs: seq<Header>): string
  {
    Join(Lines(Sorting.Sort(hs, HeaderLe)), "")
  }

  /** `"&".join(sorted(query.split("&"))) if query else ""`: whole `k=v` tokens are sorted, nothing is re-encoded. */
  function CanonicalQuery(query: string): string
  {
    if query != "" then Join(Sorting.Sort(Split(query, '&'), LexLe), "&") else ""
  }

  /** The f-string `{method}\n{path}\n{canonical_query}\n{canonical_headers}\n{signed_headers}\n{payload_hash}`. */
  function CanonicalRequest(verb: string, path: string, query: string, hs: seq<Header>, payloadHash: string): string
  {
    Join([verb, path, CanonicalQuery(query), CanonicalHeaders(hs), SignedHeaders(hs), payloadHash], "\n")
  }

  function CredentialScope(dateStamp: string): string
  {
    dateStamp + "/" + Region + "/" + Service + "/" + Terminator
  }

  function StringToSign(c: Crypto, amzDate: string, scope: string, canonicalRequest: string): string
  {
    Algorithm + "\n" + amzDate + "\n" + scope + "\n" + Hex(c.sha256(c.utf8(canonicalRequest)))
  }

  /** The local `sign(key, msg)`: HMAC-SHA256 of the UTF-8 encoded message. */
  function Mac(c: Crypto, key: seq<Byte>, msg: string): Digest
  {
    c.hmacSha256(key, c.utf8(msg))
  }

  /** k_signing: four chained MACs keyed first by "AWS4" + secret, over date, region, service, terminator. */
  function SigningKey(c: Crypto, secretKey: string, dateStamp: string): Digest
  {
    var kDate := Mac(c, c.utf8("AWS4" + secretKey), dateStamp);
    var kRegion := Mac(c, kDate, Region);
    var kService := Mac(c, kRegion, Service);
    Mac(c, kService, Terminator)
  }

  function AuthorizationValue(accessKey: string, scope: string, signedHeaders: string, signature: string): string
  {
    Algorithm + " Credential=" + accessKey + "/" + scope + ", SignedHeaders=" + signedHeaders +
    ", Signature=" + signature
  }

  /**
   * `sign_request(verb, path, host, access_key, secret_key, payload, query)` at the given time.
   * The returned dict is kept as its items in insertion order.
   */
  function SignRequest(c: Crypto, verb: string, path: string, host: string, accessKey: string,
                       secretKey: string, payload: seq<Byte>, query: string,
                       amzDate: string, dateStamp: string): seq<Header>
  {
    var payloadHash := PayloadHash(c, payload);
    var hs := BaseHeaders(amzDate, payloadHash, host);
    var canonicalRequest := CanonicalRequest(verb, path, query, hs, payloadHash);
    var scope := CredentialScope(dateStamp);
    var stringToSign := StringToSign(c, amzDate, scope, canonicalRequest);
    var signature := Hex(Mac(c, SigningKey(c, secretKey, dateStamp), stringToSign));
    hs + [("Authorization", AuthorizationValue(accessKey, scope, SignedHeaders(hs), signature))]
  }

  // ---------------------------------------------------------------------------------------
  // Properties

  const SortedNames: seq<string> := ["host", "x-amz-content-sha256", "x-amz-date"]
  const SignedHeaderList: string := "host;x-amz-content-sha256;x-amz-date"

  function SortedBaseHeaders(amzDate: string, payloadHash: string, host: string): seq<Header>
  {
    [("host", host), ("x-amz-content-sha256", payloadHash), ("x-amz-date", amzDate)]
  }

  /** The three header names sort as host < x-amz-content-sha256 < x-amz-date, and strictly. */
  lemma {:induction false} SortedBaseHeadersStrict(amzDate: string, payloadHash: string, host: string)
    ensures Sorting.StrictlySortedBy(SortedBaseHeaders(amzDate, payloadHash, host), HeaderLe)
    ensures Sorting.StrictlySortedBy(SortedNames, LexLe)
  {
    assert !LexLe("x-amz-date", "x-amz-content-sha256");
    assert !LexLe("x-amz-date", "host");
    assert !LexLe("x-amz-content-sha256", "host");
    var hs := SortedBaseHeaders(amzDate, payloadHash, host);
    StrictlySortedThree(hs[0], hs[1], hs[2], HeaderLe);
    assert hs == [hs[0], hs[1], hs[2]];
    StrictlySortedThree("host", "x-amz-content-sha256", "x-amz-date", LexLe);
  }

  lemma {:induction false} StrictlySortedThree<T>(x: T, y: T, z: T, le: (T, T) -> bool)
    requires !le(y, x) && !le(z, x) && !le(z, y)
    ensures Sorting.StrictlySortedBy([x, y, z], le)
  {
  }

  lemma {:induction false} SortedHeadersAnyOrder(hs: seq<Header>, amzDate: string, payloadHash: string, host: string)
    requires multiset(hs) == multiset(BaseHeaders(amzDate, payloadHash, host))
    ensures Sorting.Sort(hs, HeaderLe) == SortedBaseHeaders(amzDate, payloadHash, host)
  {
    var want := SortedBaseHeaders(amzDate, payloadHash, host);
    var base := BaseHeaders(amzDate, payloadHash, host);
    assert multiset(want) == multiset(base) by {
      assert want == [base[2], base[1], base[0]];
    }
    SortedBaseHeadersStrict(amzDate, payloadHash, host);
    HeaderLeTotalPreorder();
    Sorting.SortSorted(hs, HeaderLe);
    Sorting.SortedArrangementUnique(want, Sorting.Sort(hs, HeaderLe), HeaderLe);
  }

  lemma {:induction false} SortedNamesAnyOrder(hs: seq<Header>, amzDate: string, payloadHash: string, host: string)
    requires multiset(hs) == multiset(BaseHeaders(amzDate, payloadHash, host))
    ensures Sorting.Sort(Names(hs), LexLe) == SortedNames
  {
    var base := BaseHeaders(amzDate, payloadHash, host);
    NamesOfPermutation(hs, base);
    assert Names(base) == ["x-amz-date", "x-amz-content-sha256", "host"];
    assert multiset(SortedNames) == multiset(Names(base)) by {
      assert SortedNames == [Names(base)[2], Names(base)[1], Names(base)[0]];
    }
    SortedBaseHeadersStrict(amzDate, payloadHash, host);
    LexLeTotalPreorder();
    Sorting.SortSorted(Names(hs), LexLe);
    Sorting.SortedArrangementUnique(SortedNames, Sorting.Sort(Names(hs), LexLe), LexLe);
  }

  /** The canonical header lines carry the same names, in the same order, as the signed-header list. */
  lemma {:induction false} HeaderNamesMatchSigned(hs: seq<Header>, amzDate: string, payloadHash: string, host: string)
    requires multiset(hs) == multiset(BaseHeaders(amzDate, payloadHash, host))
    ensures Names(Sorting.Sort(hs, HeaderLe)) == Sorting.Sort(Names(hs), LexLe)
  {
    SortedHeadersAnyOrder(hs, amzDate, payloadHash, host);
    SortedNamesAnyOrder(hs, amzDate, payloadHash, host);
    NamesOfSortedBase(Sorting.Sort(hs, HeaderLe), amzDate, payloadHash, host);
  }

  lemma {:induction false} NamesOfSortedBase(sorted: seq<Header>, amzDate: string, payloadHash: string, host: string)
    requires sorted == SortedBaseHeaders(amzDate, payloadHash, host)
    ensures Names(sorted) == SortedNames
  {
  }

  lemma {:induction false} NamesOfPermutation(a: seq<Header>, b: seq<Header>)
    requires multiset(a) == multiset(b)
    ensures multiset(Names(a)) == multiset(Names(b))
    decreases |a|
  {
    if a == [] {
      assert |b| == |multiset(b)| == 0;
    } else {
      assert a[0] in multiset(b);
      var k :| 0 <= k < |b| && b[k] == a[0];
      var b' := b[..k] + b[k + 1..];
      RemoveAt(b, k);
      assert multiset(a[1..]) == multiset(b') by {
        assert a == [a[0]] + a[1..];
        assert multiset(a[1..]) == multiset(a) - multiset{a[0]};
      }
      NamesOfPermutation(a[1..], b');
      RemoveAt(a, 0);
      assert a[..0] + a[1..] == a[1..];
    }
  }

  /** Taking out the element at k takes its name out of the names. */
  lemma {:induction false} RemoveAt(b: seq<Header>, k: nat)
    requires k < |b|
    ensures multiset(b[..k] + b[k + 1..]) == multiset(b) - multiset{b[k]}
    ensures multiset(Names(b)) == multiset(Names(b[..k] + b[k + 1..])) + multiset{b[k].0}
  {
    var front, back := b[..k], b[k + 1..];
    assert b == front + [b[k]] + back;
    assert Names(b) == Names(front) + [b[k].0] + Names(back);
    assert Names(front + back) == Names(front) + Names(back);
  }

  /** The header lines of the source's three headers, without their newlines. */
  function HeaderFields(amzDate: string, payloadHash: string, host: string): seq<string>
  {
    ["host:" + host, "x-amz-content-sha256:" + payloadHash, "x-amz-date:" + amzDate]
  }

  /**
   * Whatever order the three headers are inserted in, the signed-header list is
   * host;x-amz-content-sha256;x-amz-date and the header block holds one line per
   * header, in that same order, each ending in a newline.
   */
  lemma {:induction false} HeaderBlock(hs: seq<Header>, amzDate: string, payloadHash: string, host: string)
    requires multiset(hs) == multiset(BaseHeaders(amzDate, payloadHash, host))
    ensures SignedHeaders(hs) == SignedHeaderList
    ensures CanonicalHeaders(hs) == Join(HeaderFields(amzDate, payloadHash, host) + [""], "\n")
  {
    SortedNamesAnyOrder(hs, amzDate, payloadHash, host);
    JoinSortedNames(Sorting.Sort(Names(hs), LexLe));
    SortedHeadersAnyOrder(hs, amzDate, payloadHash, host);
    JoinSortedLines(Sorting.Sort(hs, HeaderLe), amzDate, payloadHash, host);
  }

  lemma {:induction false} JoinSortedNames(names: seq<string>)
    requires names == SortedNames
    ensures Join(names, ";") == SignedHeaderList
  {
  }

  lemma {:induction false} JoinSortedLines(hs: seq<Header>, amzDate: string, payloadHash: string, host: string)
    requires hs == SortedBaseHeaders(amzDate, payloadHash, host)
    ensures Join(Lines(hs), "") == Join(HeaderFields(amzDate, payloadHash, host) + [""], "\n")
  {
    var f := HeaderFields(amzDate, payloadHash, host);
    var lines := Lines(hs);
    assert |lines| == 3;
    assert lines[0] == f[0] + "\n" && lines[1] == f[1] + "\n" && lines[2] == f[2] + "\n";
    assert lines == [f[0] + "\n", f[1] + "\n", f[2] + "\n"];
    assert f + [""] == [f[0], f[1], f[2], ""];
    JoinThreeLines(f[0], f[1], f[2]);
  }

  /** Three lines each ending in a newline, run together, are the lines joined by newlines plus a final one. */
  lemma {:induction false} JoinThreeLines(x: string, y: string, z: string)
    ensures Join([x + "\n", y + "\n", z + "\n"], "") == Join([x, y, z, ""], "\n")
  {
    var a := [x, y, z, ""];
    assert a[1..][1..][1..] == [""];
    assert Join(a[1..][1..], "\n") == z + "\n";
    assert Join(a[1..], "\n") == y + "\n" + (z + "\n");
    assert Join(a, "\n") == x + "\n" + (y + "\n" + (z + "\n"));
    var b := [x + "\n", y + "\n", z + "\n"];
    assert b[1..][1..] == [z + "\n"];
    assert Join(b[1..], "") == y + "\n" + (z + "\n");
    assert Join(b, "") == x + "\n" + (y + "\n" + (z + "\n"));
  }

  /**
   * The canonical query is empty exactly when the query is: a non-empty query keeps at
   * least one character (a lone `&` stays `&`).
   */
  lemma {:induction false} CanonicalQueryEmpty(query: string)
    ensures CanonicalQuery(query) == "" <==> query == ""
  {
    if query != "" {
      var sorted := Sorting.Sort(Split(query, '&'), LexLe);
      if |Split(query, '&')| == 1 {
        assert Split(query, '&') == [query];
        assert sorted == [query];
      } else {
        assert |sorted| >= 2;
        assert CanonicalQuery(query) == sorted[0] + "&" + Join(sorted[1..], "&");
      }
    }
  }

  /**
   * A non-empty query canonicalises to its `&`-separated tokens, the same tokens
   * as often as before, in sorted order.
   */
  lemma {:induction false} CanonicalQueryTokens(query: string)
    requires query != ""
    ensures var tokens := Split(CanonicalQuery(query), '&');
            multiset(tokens) == multiset(Split(query, '&')) && Sorting.SortedBy(tokens, LexLe)
  {
    var sorted := Sorting.Sort(Split(query, '&'), LexLe);
    forall p | p in sorted ensures '&' !in p {
      assert p in multiset(Split(query, '&'));
    }
    SplitJoin(sorted, '&');
    LexLeTotalPreorder();
    Sorting.SortSorted(Split(query, '&'), LexLe);
  }

  /** Canonicalising a canonical query changes nothing. */
  lemma {:induction false} CanonicalQueryIdempotent(query: string)
    ensures CanonicalQuery(CanonicalQuery(query)) == CanonicalQuery(query)
  {
    if query != "" {
      var cq := CanonicalQuery(query);
      CanonicalQueryTokens(query);
      CanonicalQueryEmpty(query);
      Sorting.SortOfSorted(Split(cq, '&'), LexLe);
      JoinSplit(cq, '&');
    }
  }

  /**
   * The canonical request of a signed call, as the lines it consists of: method, path,
   * canonical query, the three header lines, an empty line, the signed-header list and
   * the payload hash.
   */
  function RequestFields(verb: string, path: string, query: string, amzDate: string, payloadHash: string, host: string): seq<string>
  {
    [verb, path, CanonicalQuery(query)] + (HeaderFields(amzDate, payloadHash, host) + [""]) + [SignedHeaderList, payloadHash]
  }

  /**
   * Whatever order the three headers are inserted in, the canonical request is
   * the request fields joined by newlines.
   */
  lemma {:induction false} CanonicalRequestLayout(verb: string, path: string, query: string, hs: seq<Header>,
                                                  amzDate: string, payloadHash: string, host: string)
    requires multiset(hs) == multiset(BaseHeaders(amzDate, payloadHash, host))
    ensures CanonicalRequest(verb, path, query, hs, payloadHash) ==
            Join(RequestFields(verb, path, query, amzDate, payloadHash, host), "\n")
  {
    HeaderBlock(hs, amzDate, payloadHash, host);
    JoinBlockInPlace(verb, path, CanonicalQuery(query), CanonicalHeaders(hs), SignedHeaders(hs), payloadHash,
                     HeaderFields(amzDate, payloadHash, host) + [""]);
  }

  lemma {:induction false} JoinBlockInPlace(a: string, b: string, c: string, d: string, e: string, f: string,
                                            block: seq<string>)
    requires |block| >= 1 && d == Join(block, "\n")
    ensures Join([a, b, c, d, e, f], "\n") == Join([a, b, c] + block + [e, f], "\n")
  {
    assert [a, b, c, d, e, f] == [a, b, c] + [d] + [e, f];
    JoinFlatten([a, b, c], block, [e, f], "\n");
  }

  /**
   * Splitting the canonical request at its newlines gives back each field, with an
   * empty line just before the signed-header list, provided no field holds a newline.
   */
  lemma {:induction false} CanonicalRequestFields(c: Crypto, verb: string, path: string, query: string, hs: seq<Header>,
                                                  amzDate: string, payload: seq<Byte>, host: string)
    requires '\n' !in verb && '\n' !in path && '\n' !in query && '\n' !in amzDate && '\n' !in host
    requires multiset(hs) == multiset(BaseHeaders(amzDate, PayloadHash(c, payload), host))
    ensures var h := PayloadHash(c, payload);
            Split(CanonicalRequest(verb, path, query, hs, h), '\n') ==
            RequestFields(verb, path, query, amzDate, h, host)
  {
    var h := PayloadHash(c, payload);
    CanonicalRequestLayout(verb, path, query, hs, amzDate, h, host);
    HexHasNoNewline(c.sha256(payload));
    CanonicalQueryHasNoNewline(query);
    FieldsFreeOfNewline(verb, path, CanonicalQuery(query), amzDate, h, host);
    SplitJoin(RequestFields(verb, path, query, amzDate, h, host), '\n');
  }

  lemma {:induction false} HexHasNoNewline(b: seq<Byte>)
    ensures '\n' !in Hex(b)
  {
    assert '\n' !in Digits;
  }

  lemma {:induction false} FieldsFreeOfNewline(verb: string, path: string, cq: string, amzDate: string, h: string, host: string)
    requires '\n' !in verb && '\n' !in path && '\n' !in cq && '\n' !in amzDate && '\n' !in h && '\n' !in host
    ensures var fields := [verb, path, cq] + (["host:" + host, "x-amz-content-sha256:" + h, "x-amz-date:" + amzDate] + [""]) +
                          [SignedHeaderList, h];
            forall p :: p in fields ==> '\n' !in p
  {
  }

  lemma {:induction false} CanonicalQueryHasNoNewline(query: string)
    requires '\n' !in query
    ensures '\n' !in CanonicalQuery(query)
  {
    if query == "" {
      return;
    }
    CanonicalQueryTokens(query);
    JoinSplit(CanonicalQuery(query), '&');
    var tokens := Split(CanonicalQuery(query), '&');
    forall t | t in tokens ensures '\n' !in t {
      assert t in multiset(Split(query, '&'));
      TokensOfSplit(query, '&', '\n');
    }
    JoinKeepsOut(tokens, "&", '\n');
  }

  /** A character absent from a string is absent from every part of its split. */
  lemma {:induction false} TokensOfSplit(s: string, sep: char, x: char)
    requires x !in s
    ensures forall t :: t in Split(s, sep) ==> x !in t
    decreases |s|
  {
    if sep in s {
      var i := IndexOf(s, sep);
      TokensOfSplit(s[i + 1..], sep, x);
    }
  }

  /** A character in neither the parts nor the separator is not in their join. */
  lemma {:induction false} JoinKeepsOut(parts: seq<string>, sep: string, x: char)
    requires forall t :: t in parts ==> x !in t
    requires x !in sep
    ensures x !in Join(parts, sep)
  {
    if |parts| > 1 {
      assert forall t :: t in parts[1..] ==> t in parts;
      JoinKeepsOut(parts[1..], sep, x);
    }
  }

  /** The payload hash header is 64 lowercase hex digits. */
  lemma {:induction false} PayloadHashFormat(c: Crypto, payload: seq<Byte>)
    ensures |PayloadHash(c, payload)| == 64
    ensures forall ch :: ch in PayloadHash(c, payload) ==> ch in Digits
  {
  }

  /**
   * `sign_request` returns four headers under four different names: the date, the payload
   * hash and the host, in that order, then Authorization.
   */
  lemma {:induction false} SignRequestHeaders(c: Crypto, verb: string, path: string, host: string, accessKey: string,
                                              secretKey: string, payload: seq<Byte>, query: string,
                                              amzDate: string, dateStamp: string)
    ensures var r := SignRequest(c, verb, path, host, accessKey, secretKey, payload, query, amzDate, dateStamp);
            |r| == 4 && r[..3] == BaseHeaders(amzDate, PayloadHash(c, payload), host) && r[3].0 == "Authorization" &&
            forall i, j :: 0 <= i < j < |r| ==> r[i].0 != r[j].0
  {
    var r := SignRequest(c, verb, path, host, accessKey, secretKey, payload, query, amzDate, dateStamp);
    assert |r| == 4 && r[..3] == BaseHeaders(amzDate, PayloadHash(c, payload), host) && r[3].0 == "Authorization";
    SignedNamesDistinct(r, amzDate, PayloadHash(c, payload), host);
  }

  lemma {:induction false} SignedNamesDistinct(r: seq<Header>, amzDate: string, payloadHash: string, host: string)
    requires |r| == 4 && r[..3] == BaseHeaders(amzDate, payloadHash, host) && r[3].0 == "Authorization"
    ensures forall i, j :: 0 <= i < j < |r| ==> r[i].0 != r[j].0
  {
    assert r[0] == r[..3][0] && r[1] == r[..3][1] && r[2] == r[..3][2];
    assert |r[0].0| == 10 && |r[1].0| == 20 && |r[2].0| == 4 && |r[3].0| == 13;
  }

  /**
   * The Authorization value: the fixed scope, the fixed signed-header list and the
   * signature of the string-to-sign over the canonical request's fields, under the key
   * derived from the secret in four chained MACs.
   */
  lemma {:induction false} SignRequestAuthorization(c: Crypto, verb: string, path: string, host: string, accessKey: string,
                                                    secretKey: string, payload: seq<Byte>, query: string,
                                                    amzDate: string, dateStamp: string)
    ensures var r := SignRequest(c, verb, path, host, accessKey, secretKey, payload, query, amzDate, dateStamp);
            var canonical := Join(RequestFields(verb, path, query, amzDate, PayloadHash(c, payload), host), "\n");
            |r| == 4 && AuthorizationFor(r[3].1, c, accessKey, secretKey, amzDate, dateStamp, canonical)
  {
    var r := SignRequest(c, verb, path, host, accessKey, secretKey, payload, query, amzDate, dateStamp);
    var h := PayloadHash(c, payload);
    var hs := BaseHeaders(amzDate, h, host);
    var canonical := CanonicalRequest(verb, path, query, hs, h);
    var scope := CredentialScope(dateStamp);
    assert |r| == 4 && r[3].1 == AuthorizationValue(accessKey, scope, SignedHeaders(hs),
                                   Hex(Mac(c, SigningKey(c, secretKey, dateStamp), StringToSign(c, amzDate, scope, canonical))));
    CanonicalRequestLayout(verb, path, query, hs, amzDate, h, host);
    HeaderBlock(hs, amzDate, h, host);
    AuthorizationSpelledOut(r[3].1, c, accessKey, secretKey, amzDate, dateStamp, SignedHeaders(hs), canonical);
  }

  /**
   * The Authorization header written out in full for a given canonical request:
   * credential scope date/us-east-1/s3/aws4_request, the three signed headers, and the
   * hex HMAC of the string-to-sign under the four-step derived key. This is the fully
   * expanded form of CredentialScope, StringToSign, SigningKey and AuthorizationValue,
   * with every constant written out, so that SignRequestAuthorization states the header
   * independently of those helpers.
   */
  ghost predicate AuthorizationFor(auth: string, c: Crypto, accessKey: string, secretKey: string,
                                   amzDate: string, dateStamp: string, canonical: string)
  {
    var scope := dateStamp + "/" + "us-east-1" + "/" + "s3" + "/" + "aws4_request";
    var toSign := "AWS4-HMAC-SHA256" + "\n" + amzDate + "\n" + scope + "\n" + Hex(c.sha256(c.utf8(canonical)));
    var mac := (key, msg) => c.hmacSha256(key, c.utf8(msg));
    var key := mac(mac(mac(mac(c.utf8("AWS4" + secretKey), dateStamp), "us-east-1"), "s3"), "aws4_request");
    auth == "AWS4-HMAC-SHA256" + " Credential=" + accessKey + "/" + scope +
            ", SignedHeaders=" + "host;x-amz-content-sha256;x-amz-date" + ", Signature=" + Hex(mac(key, toSign))
  }

  lemma {:induction false} AuthorizationSpelledOut(auth: string, c: Crypto, accessKey: string, secretKey: string,
                                                   amzDate: string, dateStamp: string, signed: string, canonical: string)
    requires signed == SignedHeaderList
    requires var scope := CredentialScope(dateStamp);
             auth == AuthorizationValue(accessKey, scope, signed,
                       Hex(Mac(c, SigningKey(c, secretKey, dateStamp), StringToSign(c, amzDate, scope, canonical))))
    ensures AuthorizationFor(auth, c, accessKey, secretKey, amzDate, dateStamp, canonical)
  {
  }
}
