/** The image endpoint: GET /api/images/<key> serves the stored bytes of <key>. It only
    reads the images store, so it is a function of the store's entries. */
module Images {
  import opened Wrappers
  import opened Http
  import opened Blobs

  const CacheControlHeader: string := "Cache-Control"
  /** Images never change once stored, so they are cacheable for a year. */
  const LongCache: string := "public, max-age=31536000"
  const DefaultContentType: string := "image/jpeg"

  /** `path.split('/')` followed by taking the last part: the text after the last '/',
      or the whole path when it has none. */
  function LastSegment(path: string): (r: string)
    ensures '/' !in r
    ensures |r| <= |path| && r == path[|path| - |r|..]
    ensures |r| < |path| ==> path[|path| - |r| - 1] == '/'
    decreases |path|
  {
    if path == [] then []
    else if path[|path| - 1] == '/' then []
    else
      var front := path[..|path| - 1];
      var t := LastSegment(front);
      assert path[|path| - |t| - 1..] == front[|front| - |t|..] + [path[|path| - 1]];
      t + [path[|path| - 1]]
  }

  /** The last segment of a path ending in '/' followed by a slash-free name is that name. */
  lemma LastSegmentAfterSlash(prefix: string, name: string)
    requires |prefix| > 0 && prefix[|prefix| - 1] == '/'
    requires '/' !in name
    ensures LastSegment(prefix + name) == name
  {
    var p := prefix + name;
    var r := LastSegment(p);
    assert p[|p| - |name|..] == name;
  }

  /** `metadata?.contentType || 'image/jpeg'`: never empty, and the stored type whenever
      one was stored. */
  function ContentTypeOf(m: Option<Metadata>): (t: string)
    ensures t != ""
    ensures m.Some? && m.value.contentType != "" ==> t == m.value.contentType
    ensures (m.None? || m.value.contentType == "") ==> t == DefaultContentType
  {
    if m.Some? && m.value.contentType != "" then m.value.contentType else DefaultContentType
  }

  /** The headers of a served image. */
  function ImageHeaders(m: Option<Metadata>): map<string, string> {
    map[ContentTypeHeader := ContentTypeOf(m), CacheControlHeader := LongCache]
  }

  /** The endpoint, on the request's method and URL path. Only GET is served; the key is
      the last path segment; a missing key is 400, an unknown one 404. */
  function Serve(images: map<string, StoredImage>, verb: string, pathname: string, fault: Fault): (r: Response)
    ensures verb != "GET" ==> r == MethodNotAllowed
    ensures verb == "GET" && LastSegment(pathname) == "" ==> r == JsonReply(400, ErrorMessage("Filename required"))
    ensures verb == "GET" && LastSegment(pathname) != "" && fault == ReadFails ==> r == ServerError
    ensures r.status == 200 <==>
              verb == "GET" && fault != ReadFails && LastSegment(pathname) != "" && LastSegment(pathname) in images
    ensures r.status == 404 <==>
              verb == "GET" && fault != ReadFails && LastSegment(pathname) != "" && LastSegment(pathname) !in images
    ensures r.status == 200 ==>
              var stored := images[LastSegment(pathname)];
              r.body == ImageBytes(stored.data) && r.headers == ImageHeaders(stored.metadata)
  {
    if verb != "GET" then MethodNotAllowed
    else
      var fileName := LastSegment(pathname);
      if fileName == "" then JsonReply(400, ErrorMessage("Filename required"))
      else if fault == ReadFails then ServerError
      else if fileName !in images then JsonReply(404, ErrorMessage("Image not found"))
      else
        var stored := images[fileName];
        Response(200, ImageBytes(stored.data), ImageHeaders(stored.metadata))
  }
}
