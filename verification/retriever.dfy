/**
 * The URL metadata retriever: parse the submitted string as a URI, probe it
 * with HEAD (redirects followed by the transport), classify the answer's
 * status and Content-Type, and hand the final URI to the text, image or video
 * handler. The network is a value `Web`: the URI parser, the server's answer
 * to each request, the set of status codes the HTTP library knows, and the
 * current instant. Every outcome carries the requests it issued, so "no
 * request is made" is a statement about that log.
 */
module Retriever {
  import opened Common

  datatype Method = Head | Get

  /** A parsed URI, reduced to the components the retriever and the HTTP
      client look at. `host` is absent when the authority names no server
      host; `path` is the decoded path; `text` is its `toString()`. */
  datatype Uri = Uri(
    scheme: Option<string>,
    hierarchical: bool,
    authority: Option<string>,
    host: Option<string>,
    path: string,
    query: Option<string>,
    fragment: Option<string>,
    text: string)

  datatype Request = Request(verb: Method, uri: Uri)

  /** A parsed HTML document: its title and how many `<img>` and `<video>`
      elements it contains. */
  datatype Page = Page(title: string, imgCount: nat, videoCount: nat)

  /** The answer to one request after all redirects: status code, the first
      Content-Type header if any, the URI finally reached, and the body. */
  datatype Response = Response(status: int, contentType: Option<string>, finalUri: Uri, page: Page)

  /** Everything outside the retriever that it consults. */
  datatype Web = Web(
    parse: string -> Option<Uri>,
    serve: Request -> Response,
    knownStatuses: set<int>,
    now: Instant)

  /** A result together with the requests issued to obtain it, in order. */
  datatype Traced<T> = Traced(result: Result<T>, requests: seq<Request>)

  /** What a content handler contributes to the metadata record. */
  datatype Extract = Extract(title: string, hasImage: bool, hasVideo: bool)

  /** The record `retrieve` returns. */
  datatype UrlMetadata = UrlMetadata(
    normalUrl: string,
    resolvedUrl: string,
    mimeType: string,
    title: string,
    hasImage: bool,
    hasVideo: bool,
    dateResolved: Instant)

  /** Content classes the retriever can handle. */
  datatype Kind = Text | Image | Video

  // ---------------------------------------------------------------- connect

  /** The URI check of the HTTP client's request builder: a URI without a
      scheme, with a scheme other than `http` or `https` (in any case), or
      without a host is refused before anything is sent. */
  function RequestError(uri: Uri): (e: Option<Error>)
    ensures e.None? <==>
              && uri.scheme.Some?
              && (Lower(uri.scheme.value) == "http" || Lower(uri.scheme.value) == "https")
              && uri.host.Some?
    ensures uri.scheme.None? ==> e == Some(IllegalArgument("URI with undefined scheme"))
    ensures e.Some? ==> e.value.IllegalArgument?
  {
    match uri.scheme
    case None => Some(IllegalArgument("URI with undefined scheme"))
    case Some(s) =>
      var scheme := Lower(s);
      if scheme != "http" && scheme != "https" then Some(IllegalArgument("invalid URI scheme " + scheme))
      else if uri.host.None? then Some(IllegalArgument("unsupported URI " + uri.text))
      else None
  }

  /** The status checks of `connect`, in order: an unknown code, then 401,
      then any other client or server error; `None` accepts the response. */
  function StatusError(code: int, known: set<int>): (e: Option<Error>)
    ensures e.None? <==> code in known && !(400 <= code < 600)
    ensures code !in known ==> e == Some(UnknownStatus(code))
    ensures e.Some? && code in known ==>
              e == (if code == 401 then Some(NoAccess) else Some(UpstreamError(code)))
  {
    if code !in known then Some(UnknownStatus(code))
    else if code == 401 then Some(NoAccess)
    else if 400 <= code < 600 then Some(UpstreamError(code))
    else None
  }

  /** `connect`: build the request (which checks the URI), send it, and
      reject the answer by its status. */
  function Connect(req: Request, web: Web): (t: Traced<Response>)
    ensures RequestError(req.uri).Some? ==> t == Traced(Failure(RequestError(req.uri).value), [])
    ensures RequestError(req.uri).None? ==> t.requests == [req]
    ensures t.result.Success? <==>
              RequestError(req.uri).None? && StatusError(web.serve(req).status, web.knownStatuses).None?
    ensures t.result.Success? ==> t.result.value == web.serve(req)
  {
    match RequestError(req.uri)
    case Some(e) => Traced(Failure(e), [])
    case None =>
      var resp := web.serve(req);
      match StatusError(resp.status, web.knownStatuses)
      case Some(e) => Traced(Failure(e), [req])
      case None => Traced(Success(resp), [req])
  }

  // ------------------------------------------------------------ media type

  /** Position of the first `c` in `s`, or `|s|` when there is none. */
  function IndexOf(s: string, c: char): (i: nat)
    ensures i <= |s|
    ensures forall j :: 0 <= j < i ==> s[j] != c
    ensures i < |s| ==> s[i] == c
  {
    if s == [] then 0
    else if s[0] == c then 0
    else 1 + IndexOf(s[1..], c)
  }

  /** Where `s[..n]` ends once its trailing characters at or below the space
      are cut off. */
  function KeptEnd(s: string, n: nat): (k: nat)
    requires n <= |s|
    ensures k <= n
    ensures k == 0 || s[k - 1] > ' '
    ensures forall i :: k <= i < n ==> s[i] <= ' '
    decreases n
  {
    if n > 0 && s[n - 1] <= ' ' then KeptEnd(s, n - 1) else n
  }

  /** Where `s[lo..hi]` starts once its leading characters at or below the
      space are cut off. */
  function KeptStart(s: string, lo: nat, hi: nat): (k: nat)
    requires lo <= hi <= |s|
    ensures lo <= k <= hi
    ensures k == hi || s[k] > ' '
    ensures forall i :: lo <= i < k ==> s[i] <= ' '
    decreases hi - lo
  {
    if lo < hi && s[lo] <= ' ' then KeptStart(s, lo + 1, hi) else lo
  }

  /** `r` is `s` with its first `a` characters and everything after `r` cut
      off, all of them at or below the space. */
  predicate CutAt(s: string, r: string, a: int)
  {
    0 <= a && a + |r| <= |s| && r == s[a..a + |r|]
    && (forall i :: 0 <= i < a ==> s[i] <= ' ')
    && (forall i :: a + |r| <= i < |s| ==> s[i] <= ' ')
  }

  /** `trim()`: the input with exactly its leading and trailing characters at
      or below the space cut off, so neither end of the result is one. */
  function Trim(s: string): (r: string)
    ensures r == [] || (r[0] > ' ' && r[|r| - 1] > ' ')
    ensures |r| <= |s|
    ensures forall i :: 0 <= i < |r| ==> r[i] in s
    ensures exists a :: CutAt(s, r, a)
  {
    var b := KeptEnd(s, |s|);
    var a := KeptStart(s, 0, b);
    assert CutAt(s, s[a..b], a);
    s[a..b]
  }

  /** Text whose ends are above the space is its own trim. */
  lemma TrimOfClean(s: string)
    requires s == [] || (s[0] > ' ' && s[|s| - 1] > ' ')
    ensures Trim(s) == s
  {
  }

  /** The separators of RFC 2616, section 2.2, other than the space and the
      horizontal tab. */
  const Separators: set<char> :=
    {'(', ')', '<', '>', '@', ',', ';', ':', '\\', '"', '/', '[', ']', '?', '=', '{', '}'}

  /** A character of an RFC 2616 token: printable ASCII other than the space
      and the separators. */
  predicate IsTokenChar(c: char) {
    ' ' < c && c as int < 127 && c !in Separators
  }

  /** A non-empty string of token characters. */
  predicate IsToken(s: string) {
    s != [] && forall i :: 0 <= i < |s| ==> IsTokenChar(s[i])
  }

  /** Lower-casing keeps a token a token. */
  lemma LowerToken(s: string)
    requires IsToken(s)
    ensures IsToken(Lower(s))
  {
  }

  /** Lower-casing acts on each side of a `/` separately. */
  lemma LowerAroundSlash(a: string, b: string)
    ensures Lower(a + "/" + b) == Lower(a) + "/" + Lower(b)
  {
    var l := Lower(a + "/" + b);
    assert forall i :: 0 <= i < |l| ==> l[i] == (Lower(a) + "/" + Lower(b))[i];
  }

  /** A parsed media type: lower-cased type and subtype, and the parameter
      text from the first `;` on, as it was sent. */
  datatype MediaType = MediaType(mtype: string, subtype: string, params: string) {
    /** `toString()`: `type/subtype` followed by the parameters. */
    function Text(): string {
      mtype + "/" + subtype + params
    }
  }

  /** The type-and-subtype part of a Content-Type value: the text before the
      first `;`, trimmed. */
  function FullType(header: string): string {
    Trim(header[..IndexOf(header, ';')])
  }

  /** The grammar the media type parser accepts for the type part: the lone
      wildcard `*`, or two tokens around a `/` where a wildcard type needs a
      wildcard subtype. */
  predicate WellFormedType(t: string) {
    || t == "*"
    || exists k :: 0 <= k < |t| && t[k] == '/' && IsToken(t[..k]) && IsToken(t[k + 1..])
                   && !(t[..k] == "*" && t[k + 1..] != "*")
  }

  /** The media type a type part and its parameter text denote: the type
      part is split at its first `/` (a lone `*` standing for the wildcard
      type and subtype), both halves must be tokens, a wildcard type only
      goes with a wildcard subtype, and the halves are lower-cased. */
  function SplitType(fullType: string, params: string): (r: Option<MediaType>)
    ensures r.Some? ==> IsToken(r.value.mtype) && IsToken(r.value.subtype) && r.value.params == params
    ensures r.Some? && fullType == "*" ==> r.value.mtype == "*" && r.value.subtype == "*"
    ensures r.Some? && fullType != "*" ==> Lower(fullType) == r.value.mtype + "/" + r.value.subtype
  {
    if fullType == "*" then Some(MediaType("*", "*", params))
    else
      var slash := IndexOf(fullType, '/');
      if slash == |fullType| then None
      else
        var mtype := fullType[..slash];
        var subtype := fullType[slash + 1..];
        if mtype == "*" && subtype != "*" then None
        else if !IsToken(mtype) || !IsToken(subtype) then None
        else
          assert fullType == mtype + "/" + subtype;
          LowerAroundSlash(mtype, subtype);
          LowerToken(mtype);
          LowerToken(subtype);
          Some(MediaType(Lower(mtype), Lower(subtype), params))
  }

  /** `MediaType.parseMediaType`: the type part before the first `;`,
      trimmed, split into type and subtype, and the parameter text after it;
      a value that does not split is rejected with the header text. */
  function ParseMediaType(header: string): (r: Result<MediaType>)
    ensures r.Failure? ==> r.error == InvalidMediaType(header)
    ensures r.Success? <==> SplitType(FullType(header), header[IndexOf(header, ';')..]).Some?
    ensures r.Success? ==> r.value == SplitType(FullType(header), header[IndexOf(header, ';')..]).value
  {
    match SplitType(FullType(header), header[IndexOf(header, ';')..])
    case None => Failure(InvalidMediaType(header))
    case Some(media) => Success(media)
  }

  /** The first `/` of a string whose text before position `k` is a token
      and which has `/` at `k` is at `k`. */
  lemma SlashAfterToken(t: string, k: nat)
    requires k < |t| && t[k] == '/' && IsToken(t[..k])
    ensures IndexOf(t, '/') == k
  {
  }

  /** A type part splits exactly when it follows the grammar. */
  lemma SplitTypeAccepts(t: string, params: string)
    ensures SplitType(t, params).Some? <==> WellFormedType(t)
  {
    if t != "*" {
      var slash := IndexOf(t, '/');
      if SplitType(t, params).Some? {
        assert t[slash] == '/' && IsToken(t[..slash]) && IsToken(t[slash + 1..]);
      }
      if WellFormedType(t) {
        var k :| 0 <= k < |t| && t[k] == '/' && IsToken(t[..k]) && IsToken(t[k + 1..])
                 && !(t[..k] == "*" && t[k + 1..] != "*");
        SlashAfterToken(t, k);
      }
    }
  }

  /** The parser accepts exactly the values whose type part follows the
      grammar. */
  lemma ParseMediaTypeAccepts(header: string)
    ensures ParseMediaType(header).Success? <==> WellFormedType(FullType(header))
  {
    SplitTypeAccepts(FullType(header), header[IndexOf(header, ';')..]);
  }

  /** `isCompatibleWith` against the wildcard subtype of a family, for a
      parsed top-level type: the wildcard type is compatible with every
      family. */
  predicate CompatibleWith(mtype: string, family: string) {
    mtype == "*" || mtype == family
  }

  /** The dispatch order of `retrieve`: text, then image, then video. */
  function Classify(mtype: string): (k: Option<Kind>)
    ensures k == Some(Text) <==> mtype == "*" || mtype == "text"
    ensures k == Some(Image) <==> mtype == "image"
    ensures k == Some(Video) <==> mtype == "video"
  {
    if CompatibleWith(mtype, "text") then Some(Text)
    else if CompatibleWith(mtype, "image") then Some(Image)
    else if CompatibleWith(mtype, "video") then Some(Video)
    else None
  }

  // -------------------------------------------------------------- handlers

  /** `handleText`: one GET on the resolved URI; the page's title and
      whether it holds any image or video element. */
  function HandleText(uri: Uri, web: Web): (t: Traced<Extract>)
    ensures RequestError(uri).Some? ==> t == Traced(Failure(RequestError(uri).value), [])
    ensures RequestError(uri).None? ==> t.requests == [Request(Get, uri)]
    ensures t.result.Success? <==>
              RequestError(uri).None? && StatusError(web.serve(Request(Get, uri)).status, web.knownStatuses).None?
    ensures t.result.Success? ==>
              var page := web.serve(Request(Get, uri)).page;
              && t.result.value.title == page.title
              && (t.result.value.hasImage <==> page.imgCount >= 1)
              && (t.result.value.hasVideo <==> page.videoCount >= 1)
  {
    var got := Connect(Request(Get, uri), web);
    match got.result
    case Failure(e) => Traced(Failure(e), got.requests)
    case Success(resp) =>
      Traced(Success(Extract(resp.page.title, resp.page.imgCount > 0, resp.page.videoCount > 0)), got.requests)
  }

  /** The path without its trailing slashes. */
  function DropTrailingSlashes(p: string): (r: string)
    ensures |r| <= |p| && r == p[..|r|]
    ensures r == [] || r[|r| - 1] != '/'
    ensures forall i :: |r| <= i < |p| ==> p[i] == '/'
  {
    if p != [] && p[|p| - 1] == '/' then DropTrailingSlashes(p[..|p| - 1]) else p
  }

  /** The text after the last `/`, or all of `p` when it has none. */
  function AfterLastSlash(p: string): (r: string)
    ensures |r| <= |p| && r == p[|p| - |r|..]
    ensures forall i :: 0 <= i < |r| ==> r[i] != '/'
    ensures |r| < |p| ==> p[|p| - |r| - 1] == '/'
  {
    if p == [] || p[|p| - 1] == '/' then []
    else AfterLastSlash(p[..|p| - 1]) + [p[|p| - 1]]
  }

  /** The file name a path denotes: its last non-empty segment. */
  function LastSegment(path: string): string {
    AfterLastSlash(DropTrailingSlashes(path))
  }

  /** The last segment holds no `/`, and the path ends with it followed by
      nothing but slashes. */
  lemma LastSegmentIsFinalSegment(path: string)
    ensures forall i :: 0 <= i < |LastSegment(path)| ==> LastSegment(path)[i] != '/'
    ensures var d := DropTrailingSlashes(path);
            && d[|d| - |LastSegment(path)|..] == LastSegment(path)
            && forall i :: |d| <= i < |path| ==> path[i] == '/'
  {
  }

  /** `new File(uri).getName()` as the Java library computes it: only an
      absolute, hierarchical `file:` URI with no authority, query or
      fragment and a non-empty path names a file; anything else throws. */
  function FileName(uri: Uri): (r: Result<string>)
    ensures r.Success? <==>
              && uri.scheme.Some? && uri.hierarchical && EqualsIgnoreCase(uri.scheme.value, "file")
              && uri.authority.None? && uri.fragment.None? && uri.query.None? && uri.path != []
    ensures r.Failure? ==> r.error.IllegalArgument?
    ensures uri.scheme.Some? && uri.hierarchical && !EqualsIgnoreCase(uri.scheme.value, "file") ==>
              r == Failure(IllegalArgument("URI scheme is not \"file\""))
    ensures r.Success? ==> r.value == LastSegment(uri.path)
  {
    if uri.scheme.None? then Failure(IllegalArgument("URI is not absolute"))
    else if !uri.hierarchical then Failure(IllegalArgument("URI is not hierarchical"))
    else if !EqualsIgnoreCase(uri.scheme.value, "file") then Failure(IllegalArgument("URI scheme is not \"file\""))
    else if uri.authority.Some? then Failure(IllegalArgument("URI has an authority component"))
    else if uri.fragment.Some? then Failure(IllegalArgument("URI has a fragment component"))
    else if uri.query.Some? then Failure(IllegalArgument("URI has a query component"))
    else if uri.path == [] then Failure(IllegalArgument("URI path component is empty"))
    else Success(LastSegment(uri.path))
  }

  /** `handleImage` as written: the title through `new File(uri)`. */
  function HandleImageAsWritten(uri: Uri): (r: Result<Extract>)
    ensures r.Success? <==> FileName(uri).Success?
    ensures r.Failure? ==> r.error == FileName(uri).error
    ensures r.Success? ==> r.value.title == FileName(uri).value && r.value.hasImage && !r.value.hasVideo
  {
    match FileName(uri)
    case Failure(e) => Failure(e)
    case Success(name) => Success(Extract(name, true, false))
  }

  /** `handleVideo` as written: the title through `new File(uri)`. */
  function HandleVideoAsWritten(uri: Uri): (r: Result<Extract>)
    ensures r.Success? <==> FileName(uri).Success?
    ensures r.Failure? ==> r.error == FileName(uri).error
    ensures r.Success? ==> r.value.title == FileName(uri).value && r.value.hasVideo && !r.value.hasImage
  {
    match FileName(uri)
    case Failure(e) => Failure(e)
    case Success(name) => Success(Extract(name, false, true))
  }

  /** The image handler as intended: no request, the title is the last path
      segment, and only the image flag is set. */
  function HandleImage(uri: Uri): (e: Extract)
    ensures e.hasImage && !e.hasVideo
    ensures e.title == LastSegment(uri.path)
    ensures forall i :: 0 <= i < |e.title| ==> e.title[i] != '/'
  {
    LastSegmentIsFinalSegment(uri.path);
    Extract(LastSegment(uri.path), true, false)
  }

  /** The video handler as intended: no request, the title is the last path
      segment, and only the video flag is set. */
  function HandleVideo(uri: Uri): (e: Extract)
    ensures e.hasVideo && !e.hasImage
    ensures e.title == LastSegment(uri.path)
    ensures forall i :: 0 <= i < |e.title| ==> e.title[i] != '/'
  {
    LastSegmentIsFinalSegment(uri.path);
    Extract(LastSegment(uri.path), false, true)
  }

  /** A scheme the HTTP client accepts is not `file`, in any case. */
  lemma WebSchemeIsNotFile(scheme: string)
    requires Lower(scheme) == "http" || Lower(scheme) == "https"
    ensures !EqualsIgnoreCase(scheme, "file")
  {
    assert Lower("file")[0] == 'f';
  }

  /** The handlers as written fail for every URI the HTTP client can reach,
      while the intended handlers name the file. */
  lemma AsWrittenHandlersRejectWebUris(uri: Uri)
    requires RequestError(uri).None? && uri.hierarchical
    ensures HandleImageAsWritten(uri) == Failure(IllegalArgument("URI scheme is not \"file\""))
    ensures HandleVideoAsWritten(uri) == Failure(IllegalArgument("URI scheme is not \"file\""))
    ensures HandleImage(uri).title == HandleVideo(uri).title == LastSegment(uri.path)
  {
    WebSchemeIsNotFile(uri.scheme.value);
  }

  /** After a `/`, a segment without slashes is what `AfterLastSlash` finds. */
  lemma {:induction false} AfterLastSlashOfSegment(prefix: string, name: string)
    requires prefix != [] && prefix[|prefix| - 1] == '/'
    requires forall i :: 0 <= i < |name| ==> name[i] != '/'
    ensures AfterLastSlash(prefix + name) == name
    decreases |name|
  {
    if name != [] {
      var init := name[..|name| - 1];
      assert (prefix + name)[..|prefix + name| - 1] == prefix + init;
      AfterLastSlashOfSegment(prefix, init);
      assert init + [name[|name| - 1]] == name;
    }
  }

  /** The name of `/name` is `name`, for a name without slashes. */
  lemma LastSegmentOfRootFile(name: string)
    requires name != []
    requires forall i :: 0 <= i < |name| ==> name[i] != '/'
    ensures LastSegment("/" + name) == name
  {
    assert DropTrailingSlashes("/" + name) == "/" + name;
    AfterLastSlashOfSegment("/", name);
  }

  /** An image served over https at `/name` on any host: the handler as
      written fails on the scheme, the intended one titles it `name`. */
  lemma AsWrittenImageHandlerFailsOnWebFile(host: string, name: string, text: string)
    requires name != [] && forall i :: 0 <= i < |name| ==> name[i] != '/'
    ensures var uri := Uri(Some("https"), true, Some(host), Some(host), "/" + name, None, None, text);
            && HandleImageAsWritten(uri) == Failure(IllegalArgument("URI scheme is not \"file\""))
            && HandleImage(uri) == Extract(name, true, false)
  {
    assert Lower("https") != Lower("file") by { assert |Lower("https")| == 5; }
    LastSegmentOfRootFile(name);
  }

  /** A concrete input: an image at `https://example.org/cat.png`. */
  lemma AsWrittenImageHandlerCounterexample()
    ensures var uri := Uri(Some("https"), true, Some("example.org"), Some("example.org"), "/cat.png", None, None,
                           "https://example.org/cat.png");
            && HandleImageAsWritten(uri).Failure?
            && HandleImage(uri).title == "cat.png"
  {
    assert "/" + "cat.png" == "/cat.png" by {
      assert forall i :: 0 <= i < 8 ==> ("/" + "cat.png")[i] == "/cat.png"[i];
    }
    AsWrittenImageHandlerFailsOnWebFile("example.org", "cat.png", "https://example.org/cat.png");
  }

  // -------------------------------------------------------------- retrieve

  /** Which image and video handlers `retrieve` runs: the ones the code has,
      or the intended ones. */
  datatype Handlers = AsWritten | Intended

  /** The image or video handler of the chosen variant. */
  function HandleMedia(kind: Kind, uri: Uri, handlers: Handlers): (r: Result<Extract>)
    requires kind != Text
    ensures handlers == AsWritten ==> (r.Success? <==> FileName(uri).Success?)
    ensures handlers == AsWritten && r.Failure? ==> r.error == FileName(uri).error
    ensures handlers == Intended ==> r.Success? && r.value.title == LastSegment(uri.path)
    ensures r.Success? ==> (r.value.hasImage <==> kind == Image) && (r.value.hasVideo <==> kind == Video)
  {
    match (kind, handlers)
    case (Image, AsWritten) => HandleImageAsWritten(uri)
    case (Image, Intended) => Success(HandleImage(uri))
    case (_, AsWritten) => HandleVideoAsWritten(uri)
    case (_, Intended) => Success(HandleVideo(uri))
  }

  /** The record assembled from a handler's part: the input string verbatim,
      the resolved URI's text, the top-level type, and the current instant. */
  function Assemble(e: Extract, urlString: string, resolved: Uri, mtype: string, now: Instant): UrlMetadata {
    UrlMetadata(urlString, resolved.text, mtype, e.title, e.hasImage, e.hasVideo, now)
  }

  /** The HEAD probe's response (before its status is checked). */
  function Probe(uri: Uri, web: Web): Response {
    web.serve(Request(Head, uri))
  }

  /** The Content-Type the probe declares; a missing header reads as `*`. */
  function DeclaredType(resp: Response): string {
    resp.contentType.GetOr("*")
  }

  /** What `retrieve` does with an accepted probe answer of a parsed media
      type: run the text handler (one more request) or the image or video
      handler (none), and assemble the record. */
  function DescribeAs(urlString: string, resp: Response, media: MediaType, web: Web, handlers: Handlers): (t: Traced<UrlMetadata>)
    ensures |t.requests| <= 1
    ensures |t.requests| == 1 ==> t.requests[0] == Request(Get, resp.finalUri) && Classify(media.mtype) == Some(Text)
    ensures t.result.Success? ==>
              && t.result.value.normalUrl == urlString
              && t.result.value.resolvedUrl == resp.finalUri.text
              && t.result.value.mimeType == media.mtype
              && Classify(media.mtype).Some?
              && t.result.value.dateResolved == web.now
    ensures t.result.Success? && handlers == AsWritten && Classify(media.mtype) != Some(Text) ==>
              FileName(resp.finalUri).Success?
  {
    match Classify(media.mtype)
    case None => Traced(Failure(Unsupported(media.Text())), [])
    case Some(Text) =>
      var text := HandleText(resp.finalUri, web);
      (match text.result
       case Failure(e) => Traced(Failure(e), text.requests)
       case Success(part) => Traced(Success(Assemble(part, urlString, resp.finalUri, media.mtype, web.now)), text.requests))
    case Some(kind) =>
      match HandleMedia(kind, resp.finalUri, handlers)
      case Failure(e) => Traced(Failure(e), [])
      case Success(part) => Traced(Success(Assemble(part, urlString, resp.finalUri, media.mtype, web.now)), [])
  }

  /** What `retrieve` does with a probe answer whose status was accepted:
      parse its Content-Type, failing with no further request when it does
      not parse, and describe the answer by its type. */
  function Describe(urlString: string, resp: Response, web: Web, handlers: Handlers): (t: Traced<UrlMetadata>)
    ensures ParseMediaType(DeclaredType(resp)).Failure? ==>
              t == Traced(Failure(ParseMediaType(DeclaredType(resp)).error), [])
    ensures ParseMediaType(DeclaredType(resp)).Success? ==>
              t == DescribeAs(urlString, resp, ParseMediaType(DeclaredType(resp)).value, web, handlers)
  {
    match ParseMediaType(DeclaredType(resp))
    case Failure(e) => Traced(Failure(e), [])
    case Success(media) => DescribeAs(urlString, resp, media, web, handlers)
  }

  /** An image or video answer is described by its handler alone, with no
      further request. */
  lemma DescribeMedia(urlString: string, resp: Response, media: MediaType, web: Web, handlers: Handlers)
    requires Classify(media.mtype) in {Some(Image), Some(Video)}
    ensures var part := HandleMedia(Classify(media.mtype).value, resp.finalUri, handlers);
            var t := DescribeAs(urlString, resp, media, web, handlers);
            && t.requests == []
            && (part.Failure? ==> t.result == Failure(part.error))
            && (part.Success? ==> t.result == Success(Assemble(part.value, urlString, resp.finalUri, media.mtype, web.now)))
  {
  }

  /** `retrieve(urlString)` with the given image and video handlers. */
  function RetrieveWith(urlString: string, web: Web, handlers: Handlers): (t: Traced<UrlMetadata>)
    ensures web.parse(urlString).None? ==> t == Traced(Failure(Malformed(urlString)), [])
    ensures web.parse(urlString).Some? && RequestError(web.parse(urlString).value).Some? ==>
              t == Traced(Failure(RequestError(web.parse(urlString).value).value), [])
    ensures web.parse(urlString).Some? && RequestError(web.parse(urlString).value).None? ==>
              var uri := web.parse(urlString).value;
              var head := Probe(uri, web);
              && 1 <= |t.requests| <= 2
              && t.requests[0] == Request(Head, uri)
              && (StatusError(head.status, web.knownStatuses).Some? ==>
                    t == Traced(Failure(StatusError(head.status, web.knownStatuses).value), [Request(Head, uri)]))
              && (|t.requests| == 2 ==>
                    && t.requests[1] == Request(Get, head.finalUri)
                    && ParseMediaType(DeclaredType(head)).Success?
                    && Classify(ParseMediaType(DeclaredType(head)).value.mtype) == Some(Text))
    ensures t.result.Success? ==>
              var uri := web.parse(urlString).value;
              var head := Probe(uri, web);
              && web.parse(urlString).Some?
              && RequestError(uri).None?
              && StatusError(head.status, web.knownStatuses).None?
              && t.result.value.normalUrl == urlString
              && t.result.value.resolvedUrl == head.finalUri.text
              && ParseMediaType(DeclaredType(head)).Success?
              && t.result.value.mimeType == ParseMediaType(DeclaredType(head)).value.mtype
              && Classify(t.result.value.mimeType).Some?
              && t.result.value.dateResolved == web.now
    ensures t.result.Success? && handlers == AsWritten && Classify(t.result.value.mimeType) != Some(Text) ==>
              FileName(Probe(web.parse(urlString).value, web).finalUri).Success?
  {
    match web.parse(urlString)
    case None => Traced(Failure(Malformed(urlString)), [])
    case Some(uri) =>
      var probe := Connect(Request(Head, uri), web);
      match probe.result
      case Failure(e) => Traced(Failure(e), probe.requests)
      case Success(resp) =>
        var rest := Describe(urlString, resp, web, handlers);
        Traced(rest.result, probe.requests + rest.requests)
  }

  /** `retrieve(urlString)` as written. */
  function Retrieve(urlString: string, web: Web): Traced<UrlMetadata> {
    RetrieveWith(urlString, web, AsWritten)
  }

  /** `retrieve(urlString)` with the intended image and video handlers. */
  function RetrieveIntended(urlString: string, web: Web): Traced<UrlMetadata> {
    RetrieveWith(urlString, web, Intended)
  }

  /** Once the probe is accepted, `retrieve` is the probe followed by
      whatever describing its answer does. */
  lemma AcceptedProbeThenDescribe(urlString: string, web: Web, handlers: Handlers)
    requires web.parse(urlString).Some? && RequestError(web.parse(urlString).value).None?
    requires StatusError(Probe(web.parse(urlString).value, web).status, web.knownStatuses).None?
    ensures var uri := web.parse(urlString).value;
            var rest := Describe(urlString, Probe(uri, web), web, handlers);
            RetrieveWith(urlString, web, handlers) == Traced(rest.result, [Request(Head, uri)] + rest.requests)
  {
  }

  /** A string that parses to a URI without a scheme fails in the request
      builder, before any request. */
  lemma RetrieveRejectsRelativeUri(urlString: string, web: Web)
    requires web.parse(urlString).Some? && web.parse(urlString).value.scheme.None?
    ensures Retrieve(urlString, web) == Traced(Failure(IllegalArgument("URI with undefined scheme")), [])
  {
  }

  /** A content type that is neither text, image, video nor the wildcard
      fails as unsupported, carrying the parsed type's text, after the probe
      alone. */
  lemma RetrieveUnsupported(urlString: string, web: Web, handlers: Handlers)
    requires web.parse(urlString).Some? && RequestError(web.parse(urlString).value).None?
    requires var head := Probe(web.parse(urlString).value, web);
             && StatusError(head.status, web.knownStatuses).None?
             && ParseMediaType(DeclaredType(head)).Success?
             && Classify(ParseMediaType(DeclaredType(head)).value.mtype).None?
    ensures var uri := web.parse(urlString).value;
            var media := ParseMediaType(DeclaredType(Probe(uri, web))).value;
            RetrieveWith(urlString, web, handlers) == Traced(Failure(Unsupported(media.Text())), [Request(Head, uri)])
  {
  }

  /** As written, an image or video is described through `new File(uri)`
      with no request beyond the probe: it succeeds only when the resolved
      URI names a file, and a resolved URI the HTTP client could reach fails
      on its scheme. */
  lemma RetrieveImageOrVideo(urlString: string, web: Web)
    requires web.parse(urlString).Some? && RequestError(web.parse(urlString).value).None?
    requires var head := Probe(web.parse(urlString).value, web);
             && StatusError(head.status, web.knownStatuses).None?
             && ParseMediaType(DeclaredType(head)).Success?
             && Classify(ParseMediaType(DeclaredType(head)).value.mtype) in {Some(Image), Some(Video)}
    ensures var uri := web.parse(urlString).value;
            var head := Probe(uri, web);
            var t := Retrieve(urlString, web);
            && t.requests == [Request(Head, uri)]
            && (t.result.Success? <==> FileName(head.finalUri).Success?)
            && (RequestError(head.finalUri).None? && head.finalUri.hierarchical ==>
                  t.result == Failure(IllegalArgument("URI scheme is not \"file\"")))
  {
    var head := Probe(web.parse(urlString).value, web);
    AcceptedProbeThenDescribe(urlString, web, AsWritten);
    DescribeMedia(urlString, head, ParseMediaType(DeclaredType(head)).value, web, AsWritten);
    if RequestError(head.finalUri).None? && head.finalUri.hierarchical {
      WebSchemeIsNotFile(head.finalUri.scheme.value);
    }
  }

  /** With the intended handlers an image or video is described from the
      resolved URI alone: no request beyond the probe, the title is the
      URI's last path segment, and exactly the matching flag is set. */
  lemma RetrieveIntendedImageOrVideo(urlString: string, web: Web)
    requires web.parse(urlString).Some? && RequestError(web.parse(urlString).value).None?
    requires var head := Probe(web.parse(urlString).value, web);
             && StatusError(head.status, web.knownStatuses).None?
             && ParseMediaType(DeclaredType(head)).Success?
             && Classify(ParseMediaType(DeclaredType(head)).value.mtype) in {Some(Image), Some(Video)}
    ensures var uri := web.parse(urlString).value;
            var head := Probe(uri, web);
            var t := RetrieveIntended(urlString, web);
            && t.result.Success?
            && t.requests == [Request(Head, uri)]
            && t.result.value.title == LastSegment(head.finalUri.path)
            && (t.result.value.hasImage <==> t.result.value.mimeType == "image")
            && (t.result.value.hasVideo <==> t.result.value.mimeType == "video")
  {
    var head := Probe(web.parse(urlString).value, web);
    AcceptedProbeThenDescribe(urlString, web, Intended);
    DescribeMedia(urlString, head, ParseMediaType(DeclaredType(head)).value, web, Intended);
  }

  /** A text page (or an answer without Content-Type) is fetched once more
      with GET at the resolved URI, when the HTTP client accepts that URI;
      its title and element counts decide the record. */
  lemma RetrieveText(urlString: string, web: Web)
    requires web.parse(urlString).Some? && RequestError(web.parse(urlString).value).None?
    requires var head := Probe(web.parse(urlString).value, web);
             && StatusError(head.status, web.knownStatuses).None?
             && ParseMediaType(DeclaredType(head)).Success?
             && Classify(ParseMediaType(DeclaredType(head)).value.mtype) == Some(Text)
    ensures var head := Probe(web.parse(urlString).value, web);
            var got := web.serve(Request(Get, head.finalUri));
            var t := Retrieve(urlString, web);
            && |t.requests| == (if RequestError(head.finalUri).None? then 2 else 1)
            && (RequestError(head.finalUri).Some? ==> t.result == Failure(RequestError(head.finalUri).value))
            && (t.result.Success? <==>
                  RequestError(head.finalUri).None? && StatusError(got.status, web.knownStatuses).None?)
            && (t.result.Success? ==>
                  && t.result.value.title == got.page.title
                  && (t.result.value.hasImage <==> got.page.imgCount >= 1)
                  && (t.result.value.hasVideo <==> got.page.videoCount >= 1))
  {
  }

  /** A missing Content-Type is the wildcard `*`, which the text handler
      takes, and the record's type is then `*`. */
  lemma MissingContentTypeIsText(urlString: string, web: Web)
    requires web.parse(urlString).Some? && RequestError(web.parse(urlString).value).None?
    requires var head := Probe(web.parse(urlString).value, web);
             StatusError(head.status, web.knownStatuses).None? && head.contentType.None?
    ensures var head := Probe(web.parse(urlString).value, web);
            var t := Retrieve(urlString, web);
            && |t.requests| == (if RequestError(head.finalUri).None? then 2 else 1)
            && (t.result.Success? ==> t.result.value.mimeType == "*")
  {
    assert FullType("*") == "*" by {
      assert IndexOf("*", ';') == 1;
      assert "*"[..1] == "*";
      TrimOfClean("*");
    }
  }
}
