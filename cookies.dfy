// The browser client's cookie adapter: getAll reads document.cookie
// ("a=1; b=2") into name/value pairs, decoding each value; setAll writes
// one "name=value; attributes" assignment to document.cookie per cookie,
// with the value percent-encoded.

module Cookies {

  import opened Optional
  import opened Text
  import Uri
  import Seqs

  datatype Cookie = Cookie(name: string, value: string)

  /** The cookie options setAll reads; a maxAge of 0 and an empty text are treated as absent, as JavaScript falsiness does. */
  datatype CookieOptions = CookieOptions(
    path: Option<string>,
    maxAge: Option<int>,
    domain: Option<string>,
    secure: bool,
    sameSite: Option<string>)

  datatype CookieToSet = CookieToSet(name: string, value: string, options: Option<CookieOptions>)

  /** What one piece of document.cookie contributes: nothing, a cookie, or a URIError from decoding. */
  datatype Entry = Skip | Keep(cookie: Cookie) | Throws

  /** One loop iteration of getAll: trim, split on '=', keep a piece with a name and a value, decode the value. */
  function ReadPiece(piece: string): (e: Entry)
    ensures e.Keep? ==> e.cookie.name != "" && '=' !in e.cookie.name && e.cookie.value != ""
  {
    ReadParts(Split(Trim(piece), '='))
  }

  /** The pieces of one trimmed piece split on '=': the first is the name, the second the encoded value. */
  function ReadParts(parts: seq<string>): (e: Entry)
    requires |parts| >= 1 && forall k :: 0 <= k < |parts| ==> '=' !in parts[k]
    ensures e.Keep? ==> e.cookie.name != "" && '=' !in e.cookie.name && e.cookie.value != ""
  {
    var name := parts[0];
    var value := if |parts| > 1 then parts[1] else "";
    if name != "" && value != "" then
      match Uri.Decode(value)
      case None => Throws
      case Some(v) => Keep(Cookie(name, v))
    else Skip
  }

  /** getAll's result on the pieces of document.cookie: None when a decode throws. */
  function ReadPieces(pieces: seq<string>): Option<seq<Cookie>>
  {
    if pieces == [] then Some([])
    else
      match ReadPiece(pieces[0])
      case Throws => None
      case Skip => ReadPieces(pieces[1..])
      case Keep(c) => Prepend(c, ReadPieces(pieces[1..]))
  }

  function Prepend(c: Cookie, r: Option<seq<Cookie>>): Option<seq<Cookie>>
  {
    if r.Some? then Some([c] + r.value) else None
  }

  function ParseDocumentCookie(documentCookie: string): Option<seq<Cookie>>
  {
    ReadPieces(Split(documentCookie, ';'))
  }

  /** getAll: returns the cookies of document.cookie in order, or None where decodeURIComponent throws. */
  method GetAll(documentCookie: string) returns (r: Option<seq<Cookie>>)
    ensures r == ParseDocumentCookie(documentCookie)
  {
    var pairs := Split(documentCookie, ';');
    var cookies: seq<Cookie> := [];
    var i := 0;
    assert pairs[i..] == pairs && AppendAll(cookies, ReadPieces(pairs)) == ReadPieces(pairs) by {
      if ReadPieces(pairs).Some? {
        assert cookies + ReadPieces(pairs).value == ReadPieces(pairs).value;
      }
    }
    while i < |pairs|
      invariant 0 <= i <= |pairs|
      invariant ReadPieces(pairs) == AppendAll(cookies, ReadPieces(pairs[i..]))
    {
      ReadPiecesStep(pairs, i);
      var e := ReadPairOf(pairs[i]);
      if e.Throws? {
        return None;
      }
      if e.Keep? {
        AppendAllSnoc(cookies, e.cookie, ReadPieces(pairs[i + 1..]));
        cookies := cookies + [e.cookie];
      }
      i := i + 1;
    }
    assert pairs[i..] == [] && cookies + [] == cookies;
    return Some(cookies);
  }

  /** The body of getAll's loop for one piece: trim, split on '=', decode the value of a complete pair. */
  method ReadPairOf(piece: string) returns (e: Entry)
    ensures e == ReadPiece(piece)
  {
    var parts := Split(Trim(piece), '=');
    assert ReadPiece(piece) == ReadParts(parts);
    var name := parts[0];
    var value := if |parts| > 1 then parts[1] else "";
    e := Skip;
    if name != "" && value != "" {
      var decoded := Uri.Decode(value);
      if decoded.None? {
        return Throws;
      }
      e := Keep(Cookie(name, decoded.value));
    }
  }

  lemma ReadPiecesStep(ps: seq<string>, i: nat)
    requires i < |ps|
    ensures ReadPieces(ps[i..]) == match ReadPiece(ps[i])
      case Throws => None
      case Skip => ReadPieces(ps[i + 1..])
      case Keep(c) => Prepend(c, ReadPieces(ps[i + 1..]))
  {
    assert ps[i..][1..] == ps[i + 1..];
  }

  function AppendAll(cs: seq<Cookie>, r: Option<seq<Cookie>>): Option<seq<Cookie>>
  {
    if r.Some? then Some(cs + r.value) else None
  }

  lemma AppendAllSnoc(cs: seq<Cookie>, c: Cookie, r: Option<seq<Cookie>>)
    ensures AppendAll(cs, Prepend(c, r)) == AppendAll(cs + [c], r)
  {
    if r.Some? {
      assert cs + ([c] + r.value) == (cs + [c]) + r.value;
    }
  }

  /** The name=value head of an assignment, the value percent-encoded. */
  function Pair(name: string, value: string): string
  {
    name + "=" + Uri.Encode(value)
  }

  /** A present option in the JavaScript sense: not undefined and not the empty text. */
  predicate Given(o: Option<string>)
  {
    o.Some? && o.value != ""
  }

  /** Appends an attribute when it is present. */
  function WithAttribute(s: string, attribute: Option<string>): string
  {
    if attribute.Some? then s + attribute.value else s
  }

  function PathAttribute(o: CookieOptions): Option<string>
  {
    if Given(o.path) then Some("; path=" + o.path.value) else None
  }

  function MaxAgeAttribute(o: CookieOptions): Option<string>
  {
    if o.maxAge.Some? && o.maxAge.value != 0 then Some("; max-age=" + IntText(o.maxAge.value)) else None
  }

  function DomainAttribute(o: CookieOptions): Option<string>
  {
    if Given(o.domain) then Some("; domain=" + o.domain.value) else None
  }

  function SecureAttribute(o: CookieOptions): Option<string>
  {
    if o.secure then Some("; secure") else None
  }

  function SameSiteAttribute(o: CookieOptions): Option<string>
  {
    if Given(o.sameSite) then Some("; samesite=" + o.sameSite.value) else None
  }

  /** The text setAll assigns to document.cookie for one cookie: path, max-age, domain, secure, samesite in that order. */
  function Assignment(c: CookieToSet): string
  {
    var head := Pair(c.name, c.value);
    if c.options.None? then head
    else
      var o := c.options.value;
      WithAttribute(WithAttribute(WithAttribute(WithAttribute(WithAttribute(
        head, PathAttribute(o)), MaxAgeAttribute(o)), DomainAttribute(o)), SecureAttribute(o)), SameSiteAttribute(o))
  }

  /** setAll: the assignments to document.cookie, one per cookie and in order. */
  method SetAll(cookiesToSet: seq<CookieToSet>) returns (writes: seq<string>)
    ensures |writes| == |cookiesToSet|
    ensures forall i :: 0 <= i < |writes| ==> writes[i] == Assignment(cookiesToSet[i])
  {
    writes := [];
    for i := 0 to |cookiesToSet|
      invariant |writes| == i
      invariant forall j :: 0 <= j < i ==> writes[j] == Assignment(cookiesToSet[j])
    {
      var cookie := BuildAssignment(cookiesToSet[i]);
      writes := writes + [cookie];
    }
  }

  /** The body of setAll's loop: the pair, then each attribute that is present. */
  method BuildAssignment(c: CookieToSet) returns (cookie: string)
    ensures cookie == Assignment(c)
  {
    cookie := c.name + "=" + Uri.Encode(c.value);
    if c.options.Some? {
      var o := c.options.value;
      if Given(o.path) { cookie := cookie + ("; path=" + o.path.value); }
      assert cookie == WithAttribute(Pair(c.name, c.value), PathAttribute(o));
      ghost var s1 := cookie;
      if o.maxAge.Some? && o.maxAge.value != 0 { cookie := cookie + ("; max-age=" + IntText(o.maxAge.value)); }
      assert cookie == WithAttribute(s1, MaxAgeAttribute(o));
      ghost var s2 := cookie;
      if Given(o.domain) { cookie := cookie + ("; domain=" + o.domain.value); }
      assert cookie == WithAttribute(s2, DomainAttribute(o));
      ghost var s3 := cookie;
      if o.secure { cookie := cookie + "; secure"; }
      assert cookie == WithAttribute(s3, SecureAttribute(o));
      ghost var s4 := cookie;
      if Given(o.sameSite) { cookie := cookie + ("; samesite=" + o.sameSite.value); }
      assert cookie == WithAttribute(s4, SameSiteAttribute(o));
    }
  }

  /** A name document.cookie can carry back unchanged: non-empty, no separator, no leading space. */
  predicate ValidName(n: string)
  {
    n != [] && ';' !in n && '=' !in n && !IsSpace(n[0])
  }

  lemma EncodeHasNoSeparators(v: string)
    ensures ';' !in Uri.Encode(v) && '=' !in Uri.Encode(v)
    ensures forall i :: 0 <= i < |Uri.Encode(v)| ==> !IsSpace(Uri.Encode(v)[i])
  {
  }

  lemma EncodeNonEmpty(v: string)
    requires v != ""
    ensures Uri.Encode(v) != ""
  {
  }

  /** s starts with p and, if longer, continues with ';'. */
  predicate HeadedBy(s: string, p: string)
  {
    |p| <= |s| && s[..|p|] == p && (|p| < |s| ==> s[|p|] == ';')
  }

  lemma HeadedByAppend(s: string, p: string, t: string)
    requires HeadedBy(s, p)
    ensures HeadedBy(s + ";" + t, p)
  {
    var s' := s + ";" + t;
    assert s'[..|s|] == s;
    assert s'[..|p|] == s[..|p|];
  }

  lemma WithAttributeHeadedBy(s: string, p: string, attribute: Option<string>)
    requires HeadedBy(s, p)
    requires attribute.Some? ==> |attribute.value| > 0 && attribute.value[0] == ';'
    ensures HeadedBy(WithAttribute(s, attribute), p)
  {
    if attribute.Some? {
      var t := attribute.value;
      HeadedByAppend(s, p, t[1..]);
      assert s + t == s + ";" + t[1..];
    }
  }

  lemma AssignmentHeadedBy(c: CookieToSet)
    ensures HeadedBy(Assignment(c), Pair(c.name, c.value))
  {
    var p := Pair(c.name, c.value);
    assert HeadedBy(p, p);
    if c.options.Some? {
      var o := c.options.value;
      var s1 := WithAttribute(p, PathAttribute(o));
      WithAttributeHeadedBy(p, p, PathAttribute(o));
      var s2 := WithAttribute(s1, MaxAgeAttribute(o));
      WithAttributeHeadedBy(s1, p, MaxAgeAttribute(o));
      var s3 := WithAttribute(s2, DomainAttribute(o));
      WithAttributeHeadedBy(s2, p, DomainAttribute(o));
      var s4 := WithAttribute(s3, SecureAttribute(o));
      WithAttributeHeadedBy(s3, p, SecureAttribute(o));
      WithAttributeHeadedBy(s4, p, SameSiteAttribute(o));
    }
  }

  /** The head of every assignment, up to the first ';', is name=encoded value: what the browser stores. */
  lemma AssignmentHead(c: CookieToSet)
    requires ValidName(c.name)
    ensures Split(Assignment(c), ';')[0] == Pair(c.name, c.value)
  {
    var p := Pair(c.name, c.value);
    var a := Assignment(c);
    EncodeHasNoSeparators(c.value);
    AssignmentHeadedBy(c);
    assert ';' !in p;
    if ';' in a {
      assert a[|p|] == ';';
      var i := IndexOfChar(a, ';');
    } else {
      assert a == p;
    }
  }

  /** A padded or unpadded pair trims to itself. */
  lemma TrimPair(p: string, padded: bool)
    requires p != [] && !IsSpace(p[0]) && !IsSpace(p[|p| - 1])
    ensures Trim((if padded then " " else "") + p) == p
  {
    var piece := (if padded then " " else "") + p;
    assert TrimStart(piece) == p by {
      if padded {
        assert piece[1..] == p;
      }
    }
    TrimUnpadded(p);
  }

  lemma SplitPair(name: string, enc: string)
    requires '=' !in name && '=' !in enc
    ensures Split(name + "=" + enc, '=') == [name, enc]
  {
    assert name + "=" + enc == Join([name, enc], '=');
    JoinSplit([name, enc], '=');
  }

  /** The document.cookie text the browser shows for a jar of name=encoded-value pairs: "a=1; b=2". */
  function Serialize(jar: seq<Cookie>): string
  {
    Join(Pieces(jar), ';')
  }

  function Pieces(jar: seq<Cookie>): (ps: seq<string>)
    ensures |ps| >= 1
  {
    if jar == [] then [""] else [Pair(jar[0].name, jar[0].value)] + PaddedPieces(jar[1..])
  }

  /** The pieces after the first, each behind the space that follows a ';'. */
  function PaddedPieces(jar: seq<Cookie>): (ps: seq<string>)
    ensures |ps| == |jar|
    ensures forall k :: 0 <= k < |jar| ==> ps[k] == " " + Pair(jar[k].name, jar[k].value)
  {
    if jar == [] then [] else [" " + Pair(jar[0].name, jar[0].value)] + PaddedPieces(jar[1..])
  }

  predicate ValidJar(jar: seq<Cookie>)
  {
    forall i :: 0 <= i < |jar| ==> ValidName(jar[i].name) && jar[i].value != ""
  }

  lemma ReadPieceOfPair(c: Cookie, padded: bool)
    requires ValidName(c.name) && c.value != ""
    ensures ReadPiece((if padded then " " else "") + Pair(c.name, c.value)) == Keep(c)
  {
    var enc := Uri.Encode(c.value);
    var p := Pair(c.name, c.value);
    var piece := (if padded then " " else "") + p;
    assert Trim(piece) == p by {
      EncodeHasNoSeparators(c.value);
      EncodeNonEmpty(c.value);
      assert p[|p| - 1] == enc[|enc| - 1];
      TrimPair(p, padded);
    }
    assert Split(p, '=') == [c.name, enc] by {
      EncodeHasNoSeparators(c.value);
      SplitPair(c.name, enc);
    }
    EncodeHasNoSeparators(c.value);
    EncodeNonEmpty(c.value);
    Uri.DecodeEncode(c.value);
    ReadPartsOfPair(c.name, enc, c.value);
  }

  lemma ReadPartsOfPair(name: string, enc: string, value: string)
    requires name != "" && '=' !in name && '=' !in enc && enc != "" && Uri.Decode(enc) == Some(value)
    ensures ReadParts([name, enc]) == Keep(Cookie(name, value))
  {
  }

  lemma SplitSerialized(jar: seq<Cookie>)
    requires ValidJar(jar)
    ensures Split(Serialize(jar), ';') == Pieces(jar)
  {
    var ps := Pieces(jar);
    forall k | 0 <= k < |ps|
      ensures ';' !in ps[k]
    {
      if jar != [] {
        var c := jar[k];
        if k > 0 {
          assert jar[1..][k - 1] == c;
        }
        EncodeHasNoSeparators(c.value);
      }
    }
    JoinSplit(ps, ';');
  }

  /** getAll reads back every cookie of a jar the browser serialises, values decoded, in order. */
  lemma ReadSerialized(jar: seq<Cookie>)
    requires ValidJar(jar)
    ensures ParseDocumentCookie(Serialize(jar)) == Some(jar)
  {
    SplitSerialized(jar);
    if jar == [] {
      assert ReadPiece("") == Skip;
    } else {
      var ps := Pieces(jar);
      forall k | 0 <= k < |ps|
        ensures ReadPiece(ps[k]) == Keep(jar[k])
      {
        PieceReads(jar, k);
      }
      ReadAllKept(ps, jar);
    }
  }

  /** Each piece of a serialised jar reads back as its cookie. */
  lemma PieceReads(jar: seq<Cookie>, k: nat)
    requires ValidJar(jar) && k < |jar|
    ensures ReadPiece(Pieces(jar)[k]) == Keep(jar[k])
  {
    if k == 0 {
      ReadFirstPiece(jar);
    } else {
      assert Pieces(jar)[k] == PaddedPieces(jar[1..])[k - 1] && jar[k] == jar[1..][k - 1];
      ReadPaddedPiece(jar[1..], k - 1);
    }
  }

  lemma ReadFirstPiece(jar: seq<Cookie>)
    requires ValidJar(jar) && jar != []
    ensures ReadPiece(Pieces(jar)[0]) == Keep(jar[0])
  {
    ReadPieceOfPair(jar[0], false);
    assert "" + Pair(jar[0].name, jar[0].value) == Pair(jar[0].name, jar[0].value);
  }

  lemma ReadPaddedPiece(jar: seq<Cookie>, k: nat)
    requires ValidJar(jar) && k < |jar|
    ensures ReadPiece(PaddedPieces(jar)[k]) == Keep(jar[k])
  {
    ReadPieceOfPair(jar[k], true);
  }

  /** Pieces that each read as a kept cookie read, together, as those cookies in order. */
  lemma {:induction false} ReadAllKept(ps: seq<string>, jar: seq<Cookie>)
    requires |ps| == |jar|
    requires forall k :: 0 <= k < |ps| ==> ReadPiece(ps[k]) == Keep(jar[k])
    ensures ReadPieces(ps) == Some(jar)
    decreases |ps|
  {
    if ps != [] {
      assert ReadPiece(ps[0]) == Keep(jar[0]);
      forall k | 0 <= k < |ps[1..]| ensures ReadPiece(ps[1..][k]) == Keep(jar[1..][k]) {
        assert ps[1..][k] == ps[k + 1] && jar[1..][k] == jar[k + 1];
      }
      ReadAllKept(ps[1..], jar[1..]);
      assert ReadPieces(ps) == Prepend(jar[0], ReadPieces(ps[1..]));
      assert [jar[0]] + jar[1..] == jar;
    }
  }

  /** A maxAge of 0 is falsy: the assignment is the one written without a maxAge. */
  lemma ZeroMaxAgeIsDropped(c: CookieToSet)
    requires c.options.Some? && c.options.value.maxAge == Some(0)
    ensures Assignment(c) == Assignment(c.(options := Some(c.options.value.(maxAge := None))))
  {
  }

  /**
   * Removing a cookie by setting an empty value (with maxAge 0, which is dropped) leaves
   * "name=" in document.cookie, and getAll skips a piece with an empty value.
   */
  lemma ClearedCookieIsSkipped(name: string)
    requires ValidName(name)
    ensures ReadPiece(Pair(name, "")) == Skip && ReadPiece(" " + Pair(name, "")) == Skip
  {
    var p := Pair(name, "");
    assert Uri.Encode("") == "";
    assert p == name + "=";
    TrimPair(p, false);
    TrimPair(p, true);
    SplitPair(name, "");
  }
}
