/**
 * The path/query split at the top of `request`: the signer is given the path
 * (with a leading '/') and the raw query taken out of the request URL.
 */
module Url {
  import opened Wrappers
  import opened Strings

  /** What `request` hands to the signer. */
  datatype Target = Target(path: string, query: string)

  /** `url.split("://", 1)[1]`: everything after the first "://"; None where Python raises IndexError. */
  function AfterScheme(url: string): (r: Option<string>)
    ensures r.None? <==> forall k :: 0 <= k ==> !MatchesAt(url, "://", k)
    ensures r.Some? ==> exists k: nat :: MatchesAt(url, "://", k) && (forall j :: 0 <= j < k ==> !MatchesAt(url, "://", j)) &&
                                   r.value == url[k + 3..]
  {
    match FindSub(url, "://")
    case None => None
    case Some(i) => Some(url[i + 3..])
  }

  /** `rest.split("/", 1)[1] if "/" in rest else ""`: what follows the first '/'. */
  function UrlPath(rest: string): (p: string)
    ensures '/' in rest ==> |p| < |rest| && rest == rest[..|rest| - |p| - 1] + "/" + p && '/' !in rest[..|rest| - |p| - 1]
    ensures '/' !in rest ==> p == ""
  {
    if '/' in rest then rest[IndexOf(rest, '/') + 1..] else ""
  }

  /** The `if "?" in url_path` choice: path before the first '?', query up to the second. */
  function PathAndQuery(urlPath: string): Target
  {
    if '?' in urlPath then
      var parts := Split(urlPath, '?');
      Target("/" + parts[0], parts[1])
    else
      Target("/" + urlPath, "")
  }

  /** The path and query `request` signs for `url`; None where the URL has no "://". */
  function SplitUrl(url: string): Option<Target>
  {
    match AfterScheme(url)
    case None => None
    case Some(rest) => Some(PathAndQuery(UrlPath(rest)))
  }

  // ---------------------------------------------------------------------------------------
  // Properties

  /** The signed path always starts with '/', and neither it nor the query holds a '?' past that. */
  lemma {:induction false} PathShape(urlPath: string)
    ensures var t := PathAndQuery(urlPath);
            |t.path| >= 1 && t.path[0] == '/' && '?' !in t.path && '?' !in t.query
  {
    if '?' in urlPath {
      var parts := Split(urlPath, '?');
      assert parts[0] in parts && parts[1] in parts;
    }
  }

  /**
   * With a '?', the path is '/' and the text before the first '?', and the query is the
   * text between the first '?' and the second one (or the end): whatever follows a
   * second '?' is dropped.
   */
  lemma {:induction false} WithQuery(urlPath: string)
    requires '?' in urlPath
    ensures var i := IndexOf(urlPath, '?');
            var after := urlPath[i + 1..];
            var t := PathAndQuery(urlPath);
            t.path == "/" + urlPath[..i] &&
            t.query == (if '?' in after then after[..IndexOf(after, '?')] else after)
  {
    var i := IndexOf(urlPath, '?');
    var after := urlPath[i + 1..];
    assert Split(urlPath, '?') == [urlPath[..i]] + Split(after, '?');
    if '?' in after {
      assert Split(after, '?')[0] == after[..IndexOf(after, '?')];
    } else {
      assert Split(after, '?') == [after];
    }
  }

  /**
   * Putting the path and query back together gives '/' and the URL path whenever the URL
   * path holds at most one '?'; a second '?' and what follows it are what the split loses.
   */
  lemma {:induction false} Rebuild(urlPath: string)
    requires '?' in urlPath ==> '?' !in urlPath[IndexOf(urlPath, '?') + 1..]
    ensures var t := PathAndQuery(urlPath);
            (if '?' in urlPath then t.path + "?" + t.query else t.path) == "/" + urlPath
  {
    if '?' in urlPath {
      var i := IndexOf(urlPath, '?');
      var after := urlPath[i + 1..];
      assert Split(urlPath, '?') == [urlPath[..i]] + [after];
      assert urlPath == urlPath[..i] + "?" + after;
    }
  }

  /** A URL with nothing after the host is signed with path "/" and no query. */
  lemma {:induction false} BareHost(url: string)
    requires AfterScheme(url).Some? && '/' !in AfterScheme(url).value
    ensures SplitUrl(url) == Some(Target("/", ""))
  {
    assert UrlPath(AfterScheme(url).value) == "";
    assert "/" + "" == "/";
  }

  /** A URL without "://" is where `request` raises IndexError. */
  lemma {:induction false} NoScheme(url: string)
    requires forall k :: 0 <= k ==> !MatchesAt(url, "://", k)
    ensures SplitUrl(url) == None
  {
  }

  /**
   * The URLs the benchmark builds, `scheme://host/` and then a URL path: the host is
   * dropped, and the path and query come from the URL path alone.
   */
  lemma {:induction false} EndpointUrl(scheme: string, host: string, urlPath: string)
    requires ':' !in scheme && '/' !in host
    ensures SplitUrl(scheme + "://" + host + "/" + urlPath) == Some(PathAndQuery(urlPath))
  {
    var tail := host + "/" + urlPath;
    var url := scheme + "://" + tail;
    assert url == scheme + "://" + host + "/" + urlPath;
    var k := |scheme|;
    assert MatchesAt(url, "://", k) by {
      assert url[k..k + 3] == "://";
    }
    forall j | 0 <= j < k ensures !MatchesAt(url, "://", j) {
      assert url[j] == scheme[j];
      if j + 3 <= |url| {
        assert url[j..j + 3][0] == url[j];
      }
    }
    var v := FindSub(url, "://").value;
    assert v == k by {
      assert !(v < k);
      assert !(k < v);
    }
    var rest := url[k + 3..];
    assert rest == tail;
    assert rest[|host|] == '/';
    assert IndexOf(rest, '/') == |host| by {
      assert rest[..|host|] == host;
    }
    assert rest[|host| + 1..] == urlPath;
  }

  /**
   * An object URL `scheme://host/<p>` with no '?' in `<p>`: the whole of `<p>`, after a
   * '/', is the signed path, and the query is empty.
   */
  lemma {:induction false} ObjectUrl(scheme: string, host: string, urlPath: string)
    requires ':' !in scheme && '/' !in host && '?' !in urlPath
    ensures SplitUrl(scheme + "://" + host + "/" + urlPath) == Some(Target("/" + urlPath, ""))
  {
    EndpointUrl(scheme, host, urlPath);
  }

  /**
   * A URL `scheme://host/<p>?<q>` with no '?' in `<p>` or `<q>`: `<p>`, after a '/', is
   * the signed path and `<q>` the query.
   */
  lemma {:induction false} QueryUrl(scheme: string, host: string, urlPath: string, query: string)
    requires ':' !in scheme && '/' !in host && '?' !in urlPath && '?' !in query
    ensures SplitUrl(scheme + "://" + host + "/" + urlPath + "?" + query) == Some(Target("/" + urlPath, query))
  {
    var u := urlPath + "?" + query;
    assert scheme + "://" + host + "/" + urlPath + "?" + query == scheme + "://" + host + "/" + u;
    EndpointUrl(scheme, host, u);
    assert IndexOf(u, '?') == |urlPath| by {
      assert u[|urlPath|] == '?';
      assert u[..|urlPath|] == urlPath;
    }
    assert u[..|urlPath|] == urlPath;
    assert u[|urlPath| + 1..] == query;
    WithQuery(u);
  }

  /** The listing URL `scheme://host/<bucket>?list-type=2`: the bucket is the signed path and `list-type=2` the query. */
  lemma {:induction false} ListUrl(scheme: string, host: string, bucket: string)
    requires ':' !in scheme && '/' !in host && '?' !in bucket
    ensures SplitUrl(scheme + "://" + host + "/" + bucket + "?list-type=2") == Some(Target("/" + bucket, "list-type=2"))
  {
    var q := "list-type=2";
    assert '?' !in q;
    var prefix := scheme + "://" + host + "/" + bucket;
    assert prefix + "?list-type=2" == prefix + "?" + q;
    QueryUrl(scheme, host, bucket, q);
  }
}
