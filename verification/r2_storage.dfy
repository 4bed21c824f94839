/**
 * The object-storage helper behind attachment and avatar uploads: the file
 * check done before an upload, the object key and public URL an upload
 * produces, and the key a delete recovers from such a URL. The S3 calls, the
 * file read, the UUID and the clock are outside the model: their outcomes and
 * values are parameters.
 */
module R2Storage {
  import opened Wrappers
  import opened Strings

  const DefaultContentType: string := "application/octet-stream"

  // ---------------------------------------------------------------------------
  // ValidateFile

  datatype FileError = TooLarge(maxSize: int) | NoContentType | TypeNotAllowed(contentType: string)

  /** Some configured type is a prefix of the content type (an exact match is one case). */
  predicate AcceptedType(contentType: string, allowedTypes: seq<string>) {
    exists i | 0 <= i < |allowedTypes| :: HasPrefix(contentType, allowedTypes[i])
  }

  /**
   * ValidateFile: the size limit first, then a missing content type, then the
   * scan over the allowed types, which stops at the first match.
   */
  method ValidateFile(size: int, contentType: string, maxSize: int, allowedTypes: seq<string>)
    returns (r: Option<FileError>)
    ensures size > maxSize ==> r == Some(TooLarge(maxSize))
    ensures size <= maxSize && contentType == "" ==> r == Some(NoContentType)
    ensures size <= maxSize && contentType != "" ==>
      (r.None? <==> AcceptedType(contentType, allowedTypes))
      && (r.Some? ==> r == Some(TypeNotAllowed(contentType)))
  {
    if size > maxSize {
      return Some(TooLarge(maxSize));
    }
    if contentType == "" {
      return Some(NoContentType);
    }
    var allowed := false;
    var i := 0;
    while i < |allowedTypes|
      invariant 0 <= i <= |allowedTypes|
      invariant !allowed
      invariant forall k | 0 <= k < i :: !HasPrefix(contentType, allowedTypes[k])
    {
      var t := allowedTypes[i];
      if HasPrefix(contentType, t) || contentType == t {
        assert HasPrefix(contentType, allowedTypes[i]);
        allowed := true;
        break;
      }
      i := i + 1;
    }
    if !allowed {
      return Some(TypeNotAllowed(contentType));
    }
    return None;
  }

  /** The avatar types. */
  function AvatarTypes(): seq<string> {
    ["image/jpeg", "image/png", "image/webp"]
  }

  /**
   * Acceptance is by prefix, so a type that merely starts with an allowed one
   * passes, and an empty entry in the list lets every content type through.
   */
  lemma {:induction false} PrefixAcceptance(contentType: string, allowedTypes: seq<string>)
    ensures AcceptedType("image/png+evil", AvatarTypes())
    ensures "" in allowedTypes ==> AcceptedType(contentType, allowedTypes)
    ensures !AcceptedType("text/html", AvatarTypes())
  {
    assert HasPrefix("image/png+evil", AvatarTypes()[1]);
    if "" in allowedTypes {
      var i :| 0 <= i < |allowedTypes| && allowedTypes[i] == "";
      assert HasPrefix(contentType, allowedTypes[i]);
    }
    assert !HasPrefix("text/html", AvatarTypes()[1]) by {
      assert "text/html"[..9][0] == 't';
    }
  }

  // ---------------------------------------------------------------------------
  // UploadFile: names, keys, URLs

  /**
   * `filepath.Ext`: the suffix from the last '.' of the final path element, or
   * "" when that element has no '.'.
   */
  function Ext(name: string): (r: string)
    ensures r == "" || (r[0] == '.' && HasSuffix(name, r))
    ensures forall k | 0 < k < |r| :: r[k] != '.' && r[k] != '/'
    ensures r == "" ==> forall k | 0 <= k < |name| && name[k] == '.' :: '/' in name[k..]
  {
    if |name| == 0 || name[|name| - 1] == '/' then ""
    else if name[|name| - 1] == '.' then "."
    else
      var e := Ext(name[..|name| - 1]);
      if e == "" then
        assert forall k | 0 <= k < |name| - 1 :: name[..|name| - 1][k..] <= name[k..];
        ""
      else
        assert HasSuffix(name, e + [name[|name| - 1]]);
        e + [name[|name| - 1]]
  }

  /** Only the last extension counts, and only within the final path element. */
  lemma ExtExamples()
    ensures Ext("a.tar.gz") == ".gz"
    ensures Ext("d.x/f") == ""
  {
    assert "a.tar.gz"[..7][..6] == "a.tar.";
    assert "d.x/f"[..4] == "d.x/";
  }

  /** The stored file name: a UUID, a timestamp and the original extension. */
  function ObjectName(uuid: string, stamp: string, filename: string): (r: string)
    ensures HasPrefix(r, uuid + "-" + stamp)
    ensures HasSuffix(r, Ext(filename))
  {
    var r := uuid + "-" + stamp + Ext(filename);
    assert r[..|uuid + "-" + stamp|] == uuid + "-" + stamp;
    r
  }

  /** The object key: the name alone, or under the folder with its slashes trimmed. */
  function UploadKey(folder: string, name: string): (r: string)
    ensures if folder == "" then r == name
            else |r| == |Trim(folder, '/')| + 1 + |name| && HasPrefix(r, Trim(folder, '/')) && HasSuffix(r, "/" + name)
  {
    if folder == "" then name
    else
      var r := Trim(folder, '/') + "/" + name;
      assert r[|r| - |"/" + name|..] == "/" + name;
      assert r[..|Trim(folder, '/')|] == Trim(folder, '/');
      r
  }

  /** Surrounding slashes on the folder make no difference. */
  lemma {:induction false} FolderSlashesIgnored(folder: string, name: string)
    requires |folder| > 0 && folder[0] != '/' && folder[|folder| - 1] != '/'
    ensures UploadKey("/" + folder + "/", name) == folder + "/" + name
    ensures UploadKey(folder, name) == folder + "/" + name
  {
    var f := folder + "/";
    assert ("/" + f)[1..] == f;
    assert TrimLeft("/" + folder + "/", '/') == f;
    assert f[..|f| - 1] == folder;
    assert TrimRight(f, '/') == folder;
  }

  /** The public URL: the base without one trailing slash, a slash, the key. */
  function PublicUrl(base: string, key: string): (r: string)
    ensures HasSuffix(r, "/" + key)
    ensures !HasSuffix(base, "/") ==> r == base + "/" + key
  {
    var r := TrimSuffix(base, "/") + "/" + key;
    assert r[|r| - |"/" + key|..] == "/" + key;
    r
  }

  /** The content type stored with the object. */
  function StoredContentType(contentType: string): (r: string)
    ensures r != ""
    ensures contentType != "" ==> r == contentType
  {
    if contentType == "" then DefaultContentType else contentType
  }

  datatype UploadError = ReadFailed | PutFailed

  datatype Uploaded = Uploaded(key: string, contentType: string, url: string)

  /** UploadFile: the read, then the put; the URL is returned only when both succeed. */
  function UploadFile(base: string, folder: string, filename: string, contentType: string,
                      uuid: string, stamp: string, readFails: bool, putFails: bool): (r: Result<Uploaded, UploadError>)
    ensures readFails ==> r == Failure(ReadFailed)
    ensures !readFails && putFails ==> r == Failure(PutFailed)
    ensures r.Success? <==> !readFails && !putFails
    ensures r.Success? ==>
      && r.value.url == PublicUrl(base, r.value.key)
      && r.value.key == UploadKey(folder, ObjectName(uuid, stamp, filename))
      && r.value.contentType == StoredContentType(contentType)
  {
    if readFails then Failure(ReadFailed)
    else
      var key := UploadKey(folder, ObjectName(uuid, stamp, filename));
      if putFails then Failure(PutFailed)
      else Success(Uploaded(key, StoredContentType(contentType), PublicUrl(base, key)))
  }

  // ---------------------------------------------------------------------------
  // DeleteFile: the key back from the URL

  /** DeleteFile's key as written: the URL without the configured base and a slash. */
  function DeleteKeyAsWritten(base: string, url: string): (r: string)
    ensures HasPrefix(url, base + "/") ==> base + "/" + r == url
    ensures !HasPrefix(url, base + "/") ==> r == url
  {
    TrimPrefix(url, base + "/")
  }

  /** With a base that does not end in '/', the key is recovered from every upload URL. */
  lemma {:induction false} DeleteKeyAsWrittenRoundTrip(base: string, key: string)
    requires !HasSuffix(base, "/")
    ensures DeleteKeyAsWritten(base, PublicUrl(base, key)) == key
  {
    var url := base + "/" + key;
    assert url[..|base + "/"|] == base + "/";
  }

  /**
   * With a base that ends in '/', the upload URL drops that slash but the
   * delete does not, and no key is ever recovered.
   */
  lemma {:induction false} DeleteKeyAsWrittenLosesKey(base: string, key: string)
    requires HasSuffix(base, "/")
    ensures DeleteKeyAsWritten(base, PublicUrl(base, key)) != key
  {
    var stem := TrimSuffix(base, "/");
    var url := PublicUrl(base, key);
    assert url == stem + "/" + key;
    if HasPrefix(url, base + "/") {
      assert base + "/" == stem + "//";
      assert |DeleteKeyAsWritten(base, url)| == |key| - 1;
    } else {
      assert |url| > |key|;
    }
  }

  /** A concrete case: base "cdn/" and key "a.png". */
  lemma TrailingSlashExample()
    ensures PublicUrl("cdn/", "a.png") == "cdn/a.png"
    ensures DeleteKeyAsWritten("cdn/", "cdn/a.png") == "cdn/a.png"
  {
    assert HasSuffix("cdn/", "/");
    assert TrimSuffix("cdn/", "/") == "cdn";
    assert "cdn/a.png"[4] == 'a' != ("cdn/" + "/")[4];
  }

  /** The corrected extraction strips the base exactly as the upload wrote it. */
  function DeleteKey(base: string, url: string): (r: string)
    ensures HasPrefix(url, TrimSuffix(base, "/") + "/") ==> TrimSuffix(base, "/") + "/" + r == url
    ensures !HasPrefix(url, TrimSuffix(base, "/") + "/") ==> r == url
  {
    TrimPrefix(url, TrimSuffix(base, "/") + "/")
  }

  /** The corrected extraction recovers the key of every upload, whatever the base. */
  lemma {:induction false} DeleteKeyRoundTrip(base: string, key: string)
    ensures DeleteKey(base, PublicUrl(base, key)) == key
  {
    var p := TrimSuffix(base, "/") + "/";
    var url := p + key;
    assert url[..|p|] == p;
  }

  /** Both extractions agree whenever the base has no trailing slash. */
  lemma DeleteKeyAgrees(base: string, url: string)
    requires !HasSuffix(base, "/")
    ensures DeleteKey(base, url) == DeleteKeyAsWritten(base, url)
  {
  }
}
