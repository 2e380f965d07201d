/**
 * The servlet objects the logging core reads: the request with its header lines and
 * query string, the response, and Spring's content-caching wrappers around them.
 */
module Servlet {
  import opened Wrappers

  /** An HTTP request as the container presents it. */
  datatype HttpRequest = HttpRequest(
    httpMethod: string,
    requestUri: string,
    headerLines: seq<(string, string)>,
    queryString: Option<string>,
    contentType: Option<string>,
    characterEncoding: string)

  /** `ContentCachingRequestWrapper`: the request and the bytes of its body read so far. */
  datatype CachingRequest = CachingRequest(http: HttpRequest, cached: seq<bv8>)

  /** What `RequestContextHolder` hands over: a plain request or an already wrapped one. */
  datatype Request = RawRequest(http: HttpRequest) | CachedRequest(wrapper: CachingRequest)

  datatype HttpResponse = HttpResponse(status: int, contentType: Option<string>, characterEncoding: string)

  /** `ContentCachingResponseWrapper`: the response and the body bytes written so far. */
  datatype CachingResponse = CachingResponse(http: HttpResponse, cached: seq<bv8>)

  datatype Response = RawResponse(http: HttpResponse) | CachedResponse(wrapper: CachingResponse)

  function HttpOf(r: Request): HttpRequest {
    if r.RawRequest? then r.http else r.wrapper.http
  }

  /** `wrapRequest`: an already wrapped request is returned as it is; a plain one gets a
      fresh wrapper that has cached nothing yet. */
  function WrapRequest(r: Request): (w: CachingRequest)
    ensures w.http == HttpOf(r)
    ensures r.RawRequest? ==> w.cached == []
  {
    match r
    case CachedRequest(wrapper) => wrapper
    case RawRequest(http) => CachingRequest(http, [])
  }

  /** `wrapResponse`: an already wrapped response is returned as it is, a plain one is
      wrapped, and null stays null. */
  function WrapResponse(r: Option<Response>): (w: Option<CachingResponse>)
    ensures w.Some? <==> r.Some?
    ensures r.Some? && r.value.RawResponse? ==> w.value == CachingResponse(r.value.http, [])
  {
    match r
    case None => None
    case Some(CachedResponse(wrapper)) => Some(wrapper)
    case Some(RawResponse(http)) => Some(CachingResponse(http, []))
  }

  /** Wrapping twice is wrapping once: a wrapper is passed through unchanged. */
  lemma WrapIdempotent(r: Request, s: Option<Response>)
    ensures WrapRequest(CachedRequest(WrapRequest(r))) == WrapRequest(r)
    ensures var w := WrapResponse(s);
      w.Some? ==> WrapResponse(Some(CachedResponse(w.value))) == w
    ensures forall c :: WrapRequest(CachedRequest(c)) == c
    ensures forall c :: WrapResponse(Some(CachedResponse(c))) == Some(c)
    ensures WrapResponse(None) == None
  {
  }

  function LowerAscii(c: char): char {
    if 'A' <= c <= 'Z' then (c as int + 32) as char else c
  }

  /** A header name up to ASCII case. */
  function Folded(s: string): (r: string)
    ensures |r| == |s|
  {
    seq(|s|, i requires 0 <= i < |s| => LowerAscii(s[i]))
  }

  /** Some header line is named `name`, up to case. */
  predicate HasLine(lines: seq<(string, string)>, name: string) {
    exists i :: 0 <= i < |lines| && Folded(lines[i].0) == Folded(name)
  }

  /** Some name in `names` equals `name` up to case. */
  predicate Covers(names: seq<string>, name: string) {
    exists j :: 0 <= j < |names| && Folded(names[j]) == Folded(name)
  }

  lemma HasLineCons(lines: seq<(string, string)>, name: string)
    requires lines != []
    ensures HasLine(lines, name) <==> Folded(lines[0].0) == Folded(name) || HasLine(lines[1..], name)
  {
    if HasLine(lines, name) && Folded(lines[0].0) != Folded(name) {
      var i :| 0 <= i < |lines| && Folded(lines[i].0) == Folded(name);
      assert lines[1..][i - 1] == lines[i];
    }
    if HasLine(lines[1..], name) {
      var i :| 0 <= i < |lines[1..]| && Folded(lines[1..][i].0) == Folded(name);
      assert lines[i + 1] == lines[1..][i];
    }
  }

  /** `getHeader(name)`: the value of the first header line whose name equals `name`
      ignoring case, null when there is none. */
  function GetHeader(lines: seq<(string, string)>, name: string): (r: Option<string>)
    ensures r.Some? <==> HasLine(lines, name)
    decreases |lines|
  {
    HasLineCons2(lines, name);
    if lines == [] then None
    else if Folded(lines[0].0) == Folded(name) then Some(lines[0].1)
    else GetHeader(lines[1..], name)
  }

  lemma HasLineCons2(lines: seq<(string, string)>, name: string)
    ensures lines == [] ==> !HasLine(lines, name)
    ensures lines != [] ==>
      (HasLine(lines, name) <==> Folded(lines[0].0) == Folded(name) || HasLine(lines[1..], name))
  {
    if lines != [] {
      HasLineCons(lines, name);
    }
  }

  /** `getHeaderNames()`: each header name once, in order of first appearance, the
      first spelling standing for all spellings that differ only in case. */
  function HeaderNames(lines: seq<(string, string)>): (names: seq<string>)
    ensures |names| <= |lines|
    decreases |lines|
  {
    if lines == [] then []
    else
      var k := |lines| - 1;
      var earlier := HeaderNames(lines[..k]);
      if Covers(earlier, lines[k].0) then earlier else earlier + [lines[k].0]
  }

  /** Every enumerated name is the name of a header line. */
  lemma {:induction false} HeaderNamesSound(lines: seq<(string, string)>)
    ensures forall j :: 0 <= j < |HeaderNames(lines)| ==> HasLine(lines, HeaderNames(lines)[j])
    decreases |lines|
  {
    if lines != [] {
      var k := |lines| - 1;
      HeaderNamesSound(lines[..k]);
      PrefixLines(lines, k);
      assert HasLine(lines, lines[k].0) by {
        assert Folded(lines[k].0) == Folded(lines[k].0);
      }
    }
  }

  /** Every header line is enumerated under its own name or a spelling of it. */
  lemma {:induction false} HeaderNamesComplete(lines: seq<(string, string)>)
    ensures forall i :: 0 <= i < |lines| ==> Covers(HeaderNames(lines), lines[i].0)
    decreases |lines|
  {
    if lines != [] {
      var k := |lines| - 1;
      var earlier := HeaderNames(lines[..k]);
      HeaderNamesComplete(lines[..k]);
      PrefixLines(lines, k);
      var names := HeaderNames(lines);
      forall i | 0 <= i < |lines|
        ensures Covers(names, lines[i].0)
      {
        if i == k && !Covers(earlier, lines[k].0) {
          assert Folded(names[|earlier|]) == Folded(lines[i].0);
        } else if i < k {
          assert Covers(earlier, lines[..k][i].0);
          var j :| 0 <= j < |earlier| && Folded(earlier[j]) == Folded(lines[i].0);
          assert names[j] == earlier[j];
        }
      }
    }
  }

  /** What holds of the first k lines holds of all of them, and every line of the
      first k is a line of the whole. */
  lemma PrefixLines(lines: seq<(string, string)>, k: nat)
    requires k <= |lines|
    ensures forall n :: HasLine(lines[..k], n) ==> HasLine(lines, n)
    ensures forall i :: 0 <= i < k ==> lines[..k][i] == lines[i]
  {
    forall n | HasLine(lines[..k], n)
      ensures HasLine(lines, n)
    {
      var i :| 0 <= i < k && Folded(lines[..k][i].0) == Folded(n);
      assert lines[i] == lines[..k][i];
    }
  }

  /** Every enumerated name has a value. */
  lemma NamedHeadersHaveValues(lines: seq<(string, string)>)
    ensures forall n :: n in HeaderNames(lines) ==> GetHeader(lines, n).Some?
  {
    HeaderNamesSound(lines);
  }
}
