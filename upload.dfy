// The image server actions: uploading an event image into the storage
// bucket under a key that starts with the uploader's id, and deleting an
// image named by its public address, allowed only for keys that start with
// the caller's id. The storage library writes a public address through
// encodeURI; the deletion hands the path it reads from such an address to
// the store without decoding it.

module Upload {

  import opened Optional
  import opened Types
  import opened Db
  import opened Text
  import Uri

  const Bucket := "event-images"

  /** What the deletion looks for in an address: the bucket name and a slash. */
  const BucketMarker := "event-images/"

  /** 5 MiB: the largest file accepted, in bytes. */
  const MaxFileSize: nat := 5 * 1024 * 1024

  const AllowedTypes: seq<string> := ["image/jpeg", "image/png", "image/webp", "image/gif"]

  const UploadNeedsLogin := "Devi essere autenticato per caricare immagini"
  const NoFile := "Nessun file selezionato"
  const UnsupportedType := "Tipo file non supportato. Usa JPG, PNG, WebP o GIF"
  const FileTooLarge := "Il file \U{E8} troppo grande. Massimo 5MB"
  const UploadFailed := "Errore durante il caricamento dell'immagine"
  const NotAuthorized := "Non autorizzato"
  const InvalidImageUrl := "URL immagine non valido"
  const NotYourImage := "Non puoi eliminare questa immagine"
  const RemoveFailed := "Errore durante l'eliminazione dell'immagine"

  /** The uploaded file as the form carries it. */
  datatype File = File(name: string, mimeType: string, size: nat)

  datatype UploadResult = Uploaded(url: string) | Removed | Refused(error: string)

  /** The extension the key gets: the text after the last '.', lower-cased, or 'jpg' when that is empty. */
  function Extension(name: string): (ext: string)
    ensures ext != [] && '.' !in ext
    ensures '.' in name && LastPiece(name, '.') != [] ==> ext == Lower(LastPiece(name, '.'))
    ensures '.' !in name && name != [] ==> ext == Lower(name)
    ensures LastPiece(name, '.') == [] ==> ext == "jpg"
  {
    var last := Lower(LastPiece(name, '.'));
    assert '.' !in last by {
      forall k | 0 <= k < |last| ensures last[k] != '.' {
        assert LastPiece(name, '.')[k] != '.';
      }
    }
    if last == "" then "jpg" else last
  }

  /** The object key: the uploader's id, a slash, the stamp and the extension. */
  function ImageKey(uid: Id, stamp: string, name: string): (key: string)
  {
    KeyOf(uid, stamp, Extension(name))
  }

  function KeyOf(uid: Id, stamp: string, ext: string): (key: string)
    ensures uid + "/" <= key
    ensures |key| > |ext| && key[|key| - |ext| - 1..] == "." + ext
  {
    var head := uid + "/";
    var tail := "." + ext;
    var key := head + (stamp + tail);
    assert key[..|head|] == head;
    assert key[|key| - |tail|..] == tail;
    key
  }

  /** The storage route of public objects, between the project address and the bucket. */
  const PublicRoute := "/storage/v1/object/public/"

  /** The address getPublicUrl gives for a key of the bucket: the whole address, passed through encodeURI. */
  function PublicUrl(projectUrl: string, key: string): (url: string)
    ensures Uri.Decode(url) == Some(projectUrl + PublicRoute + BucketMarker + key)
  {
    var plain := projectUrl + PublicRoute + BucketMarker + key;
    Uri.DecodeEncodeUri(plain);
    Uri.EncodeUri(plain)
  }

  /** The checks before the upload, in order: session, file, type, size. None when all pass. */
  function UploadCheck(session: Option<Id>, file: Option<File>): (r: Option<string>)
    ensures r.None? ==> session.Some? && file.Some? && file.value.mimeType in AllowedTypes
                        && file.value.size <= MaxFileSize
  {
    if session.None? then Some(UploadNeedsLogin)
    else if file.None? then Some(NoFile)
    else if file.value.mimeType !in AllowedTypes then Some(UnsupportedType)
    else if file.value.size > MaxFileSize then Some(FileTooLarge)
    else None
  }

  /** The answer of uploadEventImage and the bucket after it; an existing key is never overwritten. */
  function UploadImage(session: Option<Id>, images: set<string>, file: Option<File>, stamp: string,
                       projectUrl: string, storeFails: bool): (UploadResult, set<string>)
  {
    match UploadCheck(session, file)
    case Some(error) => (Refused(error), images)
    case None =>
      var key := ImageKey(session.value, stamp, file.value.name);
      if storeFails || key in images then (Refused(UploadFailed), images)
      else (Uploaded(PublicUrl(projectUrl, key)), images + {key})
  }

  method UploadEventImage(db: Database, file: Option<File>, stamp: string, projectUrl: string, storeFails: bool)
    returns (r: UploadResult)
    modifies db`images
    ensures (r, db.images) == UploadImage(db.session, old(db.images), file, stamp, projectUrl, storeFails)
  {
    if db.session.None? {
      return Refused(UploadNeedsLogin);
    }
    if file.None? {
      return Refused(NoFile);
    }
    if file.value.mimeType !in AllowedTypes {
      return Refused(UnsupportedType);
    }
    if file.value.size > MaxFileSize {
      return Refused(FileTooLarge);
    }
    var key := ImageKey(db.session.value, stamp, file.value.name);
    if storeFails || key in db.images {
      return Refused(UploadFailed);
    }
    db.images := db.images + {key};
    r := Uploaded(PublicUrl(projectUrl, key));
  }

  /** The checks run in order, and a file of exactly 5 MiB of an accepted type passes them. */
  lemma UploadCheckOrder(session: Option<Id>, file: Option<File>)
    ensures UploadCheck(session, file) == Some(UploadNeedsLogin) <==> session.None?
    ensures UploadCheck(session, file) == Some(NoFile) <==> session.Some? && file.None?
    ensures UploadCheck(session, file) == Some(UnsupportedType) <==>
      session.Some? && file.Some? && file.value.mimeType !in AllowedTypes
    ensures UploadCheck(session, file) == Some(FileTooLarge) <==>
      session.Some? && file.Some? && file.value.mimeType in AllowedTypes && file.value.size > MaxFileSize
    ensures session.Some? && file.Some? && file.value.mimeType in AllowedTypes && file.value.size == 5242880
      ==> UploadCheck(session, file).None?
  {
  }

  /** A refused upload leaves the bucket as it was; an accepted one adds exactly the new key, under the uploader's folder. */
  lemma UploadWrites(session: Option<Id>, images: set<string>, file: Option<File>, stamp: string, projectUrl: string,
                     storeFails: bool)
    ensures var (r, t) := UploadImage(session, images, file, stamp, projectUrl, storeFails);
      && (r.Refused? ==> t == images)
      && (r.Uploaded? ==> exists key :: key !in images && t == images + {key}
                                         && session.value + "/" <= key && r.url == PublicUrl(projectUrl, key))
  {
    var (r, t) := UploadImage(session, images, file, stamp, projectUrl, storeFails);
    if r.Uploaded? {
      var key := ImageKey(session.value, stamp, file.value.name);
      assert key !in images && t == images + {key} && r.url == PublicUrl(projectUrl, key);
    }
  }

  /** urlParts[1] of imageUrl.split('event-images/'): the text after the first marker, up to the next one. */
  function PathAfterMarker(url: string): (r: Option<string>)
    ensures r.None? <==> !Contains(url, BucketMarker)
  {
    SecondPiece(url, BucketMarker)
  }

  /** The second piece of a split on a non-empty separator, when there is one. */
  function SecondPiece(s: string, sep: string): (r: Option<string>)
    requires |sep| > 0
    ensures r.None? <==> !Contains(s, sep)
  {
    match IndexOf(s, sep)
    case None => None
    case Some(i) =>
      var rest := s[i + |sep|..];
      match IndexOf(rest, sep)
      case None => Some(rest)
      case Some(j) => Some(rest[..j])
  }

  /** The answer of deleteEventImage and the bucket after it. */
  function DeleteImage(session: Option<Id>, images: set<string>, imageUrl: string, storeFails: bool)
    : (UploadResult, set<string>)
  {
    if session.None? then (Refused(NotAuthorized), images)
    else match PathAfterMarker(imageUrl)
      case None => (Refused(InvalidImageUrl), images)
      case Some(path) =>
        if !(session.value <= path) then (Refused(NotYourImage), images)
        else if storeFails then (Refused(RemoveFailed), images)
        else (Removed, images - {path})
  }

  method DeleteEventImage(db: Database, imageUrl: string, storeFails: bool) returns (r: UploadResult)
    modifies db`images
    ensures (r, db.images) == DeleteImage(db.session, old(db.images), imageUrl, storeFails)
  {
    if db.session.None? {
      return Refused(NotAuthorized);
    }
    var path := PathAfterMarker(imageUrl);
    if path.None? {
      return Refused(InvalidImageUrl);
    }
    if !(db.session.value <= path.value) {
      return Refused(NotYourImage);
    }
    if storeFails {
      return Refused(RemoveFailed);
    }
    db.images := db.images - {path.value};
    r := Removed;
  }

  /** Only a key beginning with the caller's id is ever removed; every refusal leaves the bucket alone. */
  lemma DeleteGuards(session: Option<Id>, images: set<string>, imageUrl: string, storeFails: bool)
    ensures var (r, t) := DeleteImage(session, images, imageUrl, storeFails);
      && (r.Refused? ==> t == images)
      && (r == Refused(InvalidImageUrl) <==> session.Some? && !Contains(imageUrl, BucketMarker))
      && (r == Removed ==> exists path :: session.value <= path && t == images - {path})
  {
  }

  /**
   * The path the deletion reads back from a public address is the key as
   * encodeURI wrote it, provided the bucket marker first occurs where the
   * bucket name is written and the encoded key does not contain it.
   */
  lemma PathOfPublicUrl(projectUrl: string, key: string)
    requires var p := Uri.EncodeUri(projectUrl) + PublicRoute; IndexOf(p + BucketMarker, BucketMarker) == Some(|p|)
    requires !Contains(Uri.EncodeUri(key), BucketMarker)
    ensures PathAfterMarker(PublicUrl(projectUrl, key)) == Some(Uri.EncodeUri(key))
  {
    var p := Uri.EncodeUri(projectUrl) + PublicRoute;
    PublicUrlParts(projectUrl, key);
    PathAfterFirstMarker(p, Uri.EncodeUri(key));
  }

  /** encodeURI leaves the route and the marker alone, so the address splits into the encoded project address and key. */
  lemma PublicUrlParts(projectUrl: string, key: string)
    ensures PublicUrl(projectUrl, key) == (Uri.EncodeUri(projectUrl) + PublicRoute + BucketMarker) + Uri.EncodeUri(key)
  {
    RouteUnescaped();
    EncodeAround(projectUrl, PublicRoute, BucketMarker, key);
  }

  /** Every character of the route and of the marker is one encodeURI leaves alone. */
  lemma RouteUnescaped()
    ensures forall i :: 0 <= i < |PublicRoute| ==> Uri.UriUnescaped(PublicRoute[i])
    ensures forall i :: 0 <= i < |BucketMarker| ==> Uri.UriUnescaped(BucketMarker[i])
  {
  }

  lemma EncodeAround(a: string, r: string, m: string, k: string)
    requires forall i :: 0 <= i < |r| ==> Uri.UriUnescaped(r[i])
    requires forall i :: 0 <= i < |m| ==> Uri.UriUnescaped(m[i])
    ensures Uri.EncodeUri(a + r + m + k) == (Uri.EncodeUri(a) + r + m) + Uri.EncodeUri(k)
  {
    Uri.EncodeUriAppend(a + r + m, k);
    Uri.EncodeUriAppend(a + r, m);
    Uri.EncodeUriAppend(a, r);
    Uri.EncodeUriFixed(r);
    Uri.EncodeUriFixed(m);
  }

  lemma PathAfterFirstMarker(p: string, key: string)
    requires IndexOf(p + BucketMarker, BucketMarker) == Some(|p|) && !Contains(key, BucketMarker)
    ensures PathAfterMarker((p + BucketMarker) + key) == Some(key)
  {
    SecondPieceAfterFirst(p, BucketMarker, key);
  }

  lemma SecondPieceAfterFirst(p: string, sep: string, key: string)
    requires |sep| > 0 && IndexOf(p + sep, sep) == Some(|p|) && !Contains(key, sep)
    ensures SecondPiece((p + sep) + key, sep) == Some(key)
  {
    var a := p + sep;
    IndexOfAppend(a, key, sep, |p|);
    assert (a + key)[|p| + |sep|..] == key;
  }

  /**
   * The ownership test is a plain prefix test, with no '/': a caller whose id
   * is a prefix of another user's id may delete that user's images. Account
   * ids are UUIDs of one fixed length, so no two of them are in that
   * relation: the weakness is latent, not one a real account can use.
   */
  lemma PrefixTestHasNoSlash(uid: Id, other: Id, images: set<string>, p: string, key: string)
    requires uid <= other && other + "/" <= key
    requires IndexOf(p + BucketMarker, BucketMarker) == Some(|p|)
    requires !Contains(key, BucketMarker)
    ensures DeleteImage(Some(uid), images, (p + BucketMarker) + key, false) == (Removed, images - {key})
  {
    PathAfterFirstMarker(p, key);
    PrefixOfPrefix(uid, other, key);
  }

  lemma PrefixOfPrefix(a: string, b: string, c: string)
    requires a <= b && b + "/" <= c
    ensures a <= c
  {
    assert c[..|a|] == b[..|a|];
  }

  /** An accepted upload stores the new key and answers with its public address. */
  lemma AcceptedUpload(session: Option<Id>, images: set<string>, file: Option<File>, stamp: string, projectUrl: string)
    requires UploadImage(session, images, file, stamp, projectUrl, false).0.Uploaded?
    ensures session.Some? && file.Some?
    ensures var key := ImageKey(session.value, stamp, file.value.name);
      && key !in images
      && UploadImage(session, images, file, stamp, projectUrl, false) == (Uploaded(PublicUrl(projectUrl, key)), images + {key})
  {
  }

  /** The deletion removes the path it reads, once the ownership test passes. */
  lemma DeletesPath(session: Option<Id>, images: set<string>, url: string, path: string)
    requires session.Some? && PathAfterMarker(url) == Some(path) && session.value <= path
    ensures DeleteImage(session, images, url, false) == (Removed, images - {path})
  {
  }

  /**
   * Upload and delete round trip, as written: the address an upload returns,
   * handed back to the deletion by the same user, is accepted, but what is
   * removed is the key as encodeURI wrote it, so the uploaded image goes
   * exactly when encodeURI leaves its key alone. Account ids are UUIDs,
   * which encodeURI leaves alone.
   */
  lemma UploadThenDelete(session: Option<Id>, images: set<string>, file: Option<File>, stamp: string,
                         projectUrl: string)
    requires UploadImage(session, images, file, stamp, projectUrl, false).0.Uploaded?
    requires forall i :: 0 <= i < |session.value| ==> Uri.UriUnescaped(session.value[i])
    requires var p := Uri.EncodeUri(projectUrl) + PublicRoute; IndexOf(p + BucketMarker, BucketMarker) == Some(|p|)
    requires !Contains(Uri.EncodeUri(ImageKey(session.value, stamp, file.value.name)), BucketMarker)
    ensures var (r, t) := UploadImage(session, images, file, stamp, projectUrl, false);
      var key := ImageKey(session.value, stamp, file.value.name);
      && DeleteImage(session, t, r.url, false) == (Removed, t - {Uri.EncodeUri(key)})
      && (DeleteImage(session, t, r.url, false).1 == images <==> Uri.EncodeUri(key) == key)
  {
    AcceptedUpload(session, images, file, stamp, projectUrl);
    var uid := session.value;
    var key := ImageKey(uid, stamp, file.value.name);
    var enc := Uri.EncodeUri(key);
    PathOfPublicUrl(projectUrl, key);
    EncodedKeyOwned(uid, key);
    DeletesPath(session, images + {key}, PublicUrl(projectUrl, key), enc);
    RemoveOther(images, key, enc);
  }

  /** encodeURI keeps an owner prefix it does not escape, so the encoded key still starts with it. */
  lemma EncodedKeyOwned(uid: Id, key: string)
    requires uid <= key
    requires forall i :: 0 <= i < |uid| ==> Uri.UriUnescaped(uid[i])
    ensures uid <= Uri.EncodeUri(key)
  {
    var rest := key[|uid|..];
    assert key == uid + rest;
    Uri.EncodeUriAppend(uid, rest);
    Uri.EncodeUriFixed(uid);
  }

  /** Removing x from images + {key}, with key new, gives images back exactly when x is key. */
  lemma RemoveOther(images: set<string>, key: string, x: string)
    requires key !in images
    ensures (images + {key}) - {x} == images <==> x == key
  {
    if x != key {
      assert key in (images + {key}) - {x};
    }
  }

  /** A name ending in '.' and a lower-case extension without '.' gets exactly that extension. */
  lemma ExtensionOf(stem: string, ext: string)
    requires ext != [] && '.' !in ext
    requires forall i :: 0 <= i < |ext| ==> !('A' <= ext[i] <= 'Z')
    ensures Extension(stem + "." + ext) == ext
  {
    var name := stem + "." + ext;
    var last := LastPiece(name, '.');
    assert name[|name| - |ext| - 1] == '.';
    assert |last| == |ext|;
    assert last == ext;
  }

  /**
   * A file whose extension holds a character encodeURI escapes, such as
   * "foto.jp g", gets a key that encodeURI changes: deleting the uploaded
   * image by its address answers success and leaves the image in the
   * bucket (UploadThenDelete).
   */
  lemma EscapedExtensionImageStays(uid: Id, stamp: string, stem: string, ext: string, k: nat)
    requires ext != [] && '.' !in ext
    requires forall i :: 0 <= i < |ext| ==> !('A' <= ext[i] <= 'Z')
    requires k < |ext| && !Uri.UriUnescaped(ext[k])
    ensures var key := ImageKey(uid, stamp, stem + "." + ext);
      Uri.EncodeUri(key) != key
  {
    ExtensionOf(stem, ext);
    var key := KeyOf(uid, stamp, ext);
    assert key[|key| - |ext| + k] == ext[k] by {
      assert key[|key| - |ext| - 1..] == "." + ext;
    }
    EscapedAt(key, |key| - |ext| + k);
  }

  /** A text holding a character encodeURI escapes is changed by encodeURI. */
  lemma EscapedAt(s: string, k: nat)
    requires k < |s| && !Uri.UriUnescaped(s[k])
    ensures Uri.EncodeUri(s) != s
  {
    Uri.EncodeUriFixed(s);
  }

  /** The instance "foto.jp g": its key is changed by encodeURI, so its image outlives the deletion. */
  lemma SpacedNameImageStays(uid: Id, stamp: string)
    ensures var key := ImageKey(uid, stamp, "foto.jp g");
      Uri.EncodeUri(key) != key
  {
    var stem, ext := "foto", "jp g";
    assert stem + "." + ext == "foto.jp g";
    EscapedExtensionImageStays(uid, stamp, stem, ext, 2);
  }

  /**
   * The deletion as evidently intended: the path read from the address is
   * percent-decoded before the ownership test and the removal, so that it
   * names the stored key again. A path that does not decode is refused as
   * an invalid address.
   */
  function DeleteImageDecoded(session: Option<Id>, images: set<string>, imageUrl: string, storeFails: bool)
    : (r: (UploadResult, set<string>))
    ensures r.0.Refused? ==> r.1 == images
    ensures r.0 == Removed ==> session.Some? && exists path :: session.value <= path && r.1 == images - {path}
  {
    if session.None? then (Refused(NotAuthorized), images)
    else match PathAfterMarker(imageUrl)
      case None => (Refused(InvalidImageUrl), images)
      case Some(encoded) =>
        match Uri.Decode(encoded)
        case None => (Refused(InvalidImageUrl), images)
        case Some(path) =>
          if !(session.value <= path) then (Refused(NotYourImage), images)
          else if storeFails then (Refused(RemoveFailed), images)
          else (Removed, images - {path})
  }

  /** With the path decoded, the address an upload returns deletes exactly the uploaded image, whatever its key. */
  lemma UploadThenDeleteDecoded(session: Option<Id>, images: set<string>, file: Option<File>, stamp: string,
                                projectUrl: string)
    requires UploadImage(session, images, file, stamp, projectUrl, false).0.Uploaded?
    requires var p := Uri.EncodeUri(projectUrl) + PublicRoute; IndexOf(p + BucketMarker, BucketMarker) == Some(|p|)
    requires !Contains(Uri.EncodeUri(ImageKey(session.value, stamp, file.value.name)), BucketMarker)
    ensures var (r, t) := UploadImage(session, images, file, stamp, projectUrl, false);
      DeleteImageDecoded(session, t, r.url, false) == (Removed, images)
  {
    AcceptedUpload(session, images, file, stamp, projectUrl);
    var key := ImageKey(session.value, stamp, file.value.name);
    PathOfPublicUrl(projectUrl, key);
    Uri.DecodeEncodeUri(key);
    DeletesDecodedPath(session, images + {key}, PublicUrl(projectUrl, key), Uri.EncodeUri(key), key);
    RemoveOther(images, key, key);
  }

  lemma DeletesDecodedPath(session: Option<Id>, images: set<string>, url: string, encoded: string, path: string)
    requires session.Some? && PathAfterMarker(url) == Some(encoded) && Uri.Decode(encoded) == Some(path)
    requires session.value <= path
    ensures DeleteImageDecoded(session, images, url, false) == (Removed, images - {path})
  {
  }
}
