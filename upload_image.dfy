/** The upload endpoint: POST /api/upload-image stores one image under a key made of the
    upload time and the file's name, and answers with the URL that serves it. */
module UploadImage {
  import opened Wrappers
  import opened Text
  import opened Http
  import opened Auth
  import opened Blobs
  import opened Images

  /** The `image` field of the multipart form, already decoded. */
  datatype FilePart = FilePart(name: string, contentType: string, data: seq<bv8>)

  datatype UploadRequest = UploadRequest(verb: string, authorization: Option<string>, image: Option<FilePart>)

  const ImagesRoute: string := "/api/images/"

  /** `${Date.now()}-${file.name}`: the key reads back as the upload time (its leading
      digits), a '-', and the file name. */
  function UploadKey(now: nat, name: string): (k: string)
    ensures LeadingDigits(k) < |k| && k[LeadingDigits(k)] == '-'
    ensures IsDigits(k[..LeadingDigits(k)]) && ParseDecimal(k[..LeadingDigits(k)]) == now
    ensures k[LeadingDigits(k) + 1..] == name
  {
    var digits := NatToString(now);
    LeadingDigitsOf(digits, '-', name);
    ParseNatToString(now);
    var k := digits + "-" + name;
    assert k[..|digits|] == digits;
    k
  }

  /** `/api/images/${fileName}`: a URL under the images route whose last path segment is
      the key, when the key has no '/'. */
  function ImageUrl(key: string): (u: string)
    ensures HasPrefix(ImagesRoute, u) && u[|ImagesRoute|..] == key
    ensures '/' !in key ==> LastSegment(u) == key
  {
    if '/' !in key then LastSegmentAfterSlash(ImagesRoute, key); ImagesRoute + key
    else ImagesRoute + key
  }

  /** What the upload writes: the bytes as uploaded, with metadata under which the image
      endpoint serves the file's own type (or its default when the type is empty). */
  function Stored(f: FilePart): (r: StoredImage)
    ensures r.data == f.data
    ensures r.metadata.Some? && r.metadata.value.originalName == f.name
    ensures ContentTypeOf(r.metadata) == if f.contentType != "" then f.contentType else DefaultContentType
  {
    StoredImage(f.data, Some(Metadata(f.contentType, f.name)))
  }

  /** The endpoint. OPTIONS is answered first; every other method passes the administrator
      check before the method is looked at; a POST writes exactly one key. */
  method Upload(store: ImageStore, req: UploadRequest, password: Option<string>, now: nat, fault: Fault)
    returns (out: Outcome)
    modifies store
    ensures req.verb == "OPTIONS" ==> out == Reply(NoContent) && store.entries == old(store.entries)
    ensures req.verb != "OPTIONS" && !Configured(password) ==>
              out == Uncaught(NotConfiguredMessage) && store.entries == old(store.entries)
    ensures req.verb != "OPTIONS" && VerifyAdmin(req.authorization, password) == Verdict(false) ==>
              out == Reply(Unauthorized) && store.entries == old(store.entries)
    ensures req.verb != "OPTIONS" && VerifyAdmin(req.authorization, password) == Verdict(true) ==>
              if req.verb != "POST" then
                out == Reply(MethodNotAllowed) && store.entries == old(store.entries)
              else if req.image.None? then
                out == Reply(JsonReply(400, ErrorMessage("No file provided"))) && store.entries == old(store.entries)
              else if fault == WriteFails then
                out == Reply(ServerError) && store.entries == old(store.entries)
              else
                var key := UploadKey(now, req.image.value.name);
                store.entries == old(store.entries)[key := Stored(req.image.value)] &&
                out == Reply(JsonReply(200, UploadedUrl(ImageUrl(key))))
  {
    if req.verb == "OPTIONS" {
      return Reply(NoContent);
    }
    var auth := VerifyAdmin(req.authorization, password);
    if auth.NotConfigured? {
      return Uncaught(NotConfiguredMessage);
    }
    if !auth.granted {
      return Reply(Unauthorized);
    }
    if req.verb != "POST" {
      return Reply(MethodNotAllowed);
    }
    if req.image.None? {
      return Reply(JsonReply(400, ErrorMessage("No file provided")));
    }
    var file := req.image.value;
    var key := UploadKey(now, file.name);
    if fault == WriteFails {
      return Reply(ServerError);
    }
    store.Set(key, Stored(file));
    return Reply(JsonReply(200, UploadedUrl(ImageUrl(key))));
  }

  /** Two uploads share a key only when they share both the time and the file name: the
      digits of the time stop at the first '-'. */
  lemma UploadKeyInjective(t1: nat, n1: string, t2: nat, n2: string)
    ensures UploadKey(t1, n1) == UploadKey(t2, n2) ==> t1 == t2 && n1 == n2
  {
    var a, b := NatToString(t1), NatToString(t2);
    var k1, k2 := UploadKey(t1, n1), UploadKey(t2, n2);
    if k1 == k2 {
      // the rendering of the time is the run of digits before the first '-'
      LeadingDigitsOf(a, '-', n1);
      LeadingDigitsOf(b, '-', n2);
      assert a == k1[..|a|] && b == k2[..|b|];
      NatToStringInjective(t1, t2);
      assert n1 == k1[|a| + 1..] && n2 == k2[|b| + 1..];
    }
  }

  /** The generated key has no '/' when the file name has none. */
  lemma UploadKeySlashFree(now: nat, name: string)
    requires '/' !in name
    ensures '/' !in UploadKey(now, name)
  {
  }

  /** Upload then serve: for a file name without '/', the last segment of the returned URL
      is the key written, and a GET of that URL returns the uploaded bytes with the
      uploaded content type (or the default when it was empty), cacheable for a year. */
  lemma UploadRoundTrip(images: map<string, StoredImage>, now: nat, f: FilePart)
    requires '/' !in f.name
    ensures LastSegment(ImageUrl(UploadKey(now, f.name))) == UploadKey(now, f.name)
    ensures Serve(images[UploadKey(now, f.name) := Stored(f)], "GET", ImageUrl(UploadKey(now, f.name)), NoFault)
         == Response(200, ImageBytes(f.data),
                     map[ContentTypeHeader := if f.contentType != "" then f.contentType else DefaultContentType,
                         CacheControlHeader := LongCache])
  {
    var key := UploadKey(now, f.name);
    UploadKeySlashFree(now, f.name);
    LastSegmentAfterSlash(ImagesRoute, key);
    assert key != "";
  }
}
