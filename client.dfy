/**
 The Dynite client's construction: the base URL handed to the client is
 accepted only when it begins with the literal scheme prefix `http://` or
 `https://`, is stored with its trailing slashes removed, and is otherwise
 refused with an InvalidURLError.
 */
module Client {
  import opened Text

  /**
   The client's exception classes. InvalidURLError is a subclass of
   DyniteError, the umbrella class of the library's errors.
   */
  datatype ErrorKind = DyniteError | InvalidURLError

  /** How far below DyniteError a kind sits in the class hierarchy. */
  function Depth(k: ErrorKind): nat {
    match k
    case DyniteError => 0
    case InvalidURLError => 1
  }

  /** The class a kind directly derives from, None for the root DyniteError. */
  function Parent(k: ErrorKind): (p: Option<ErrorKind>)
    ensures p.Some? ==> Depth(p.value) < Depth(k)
  {
    match k
    case DyniteError => None
    case InvalidURLError => Some(DyniteError)
  }

  /** `issubclass(k, ancestor)` over the client's exception classes. */
  predicate IsA(k: ErrorKind, ancestor: ErrorKind)
    decreases Depth(k)
  {
    k == ancestor || (Parent(k).Some? && IsA(Parent(k).value, ancestor))
  }

  /** Catching DyniteError catches every error the client raises. */
  lemma EveryErrorIsDyniteError(k: ErrorKind)
    ensures IsA(k, DyniteError)
    ensures IsA(k, InvalidURLError) <==> k == InvalidURLError
  {
  }

  datatype Option<T> = None | Some(value: T)

  /** A raised exception: its class and its message. */
  datatype Error = Error(kind: ErrorKind, message: string)

  datatype Result<T> = Ok(value: T) | Err(error: Error)

  const HttpPrefix: string := "http://"
  const HttpsPrefix: string := "https://"

  /** The scheme test: a literal, case-sensitive prefix check. */
  predicate HasSupportedScheme(url: string) {
    StartsWith(url, HttpPrefix) || StartsWith(url, HttpsPrefix)
  }

  /**
   Both accepted prefixes start with `http`; a URL passes the scheme test
   exactly when `http` is followed by `://` or by `s://`.
   */
  lemma SchemeTestAfterHttp(url: string)
    ensures HasSupportedScheme(url) <==>
              StartsWith(url, "http") && (StartsWith(url[4..], "://") || StartsWith(url[4..], "s://"))
  {
    if |url| >= 4 {
      assert HttpPrefix == "http" + "://";
      assert HttpsPrefix == "http" + "s://";
      assert forall n :: 4 <= n <= |url| ==> url[..n] == url[..4] + url[4..][..n - 4];
    }
  }

  /**
   `Dynite._validate_url`: a URL with a supported scheme prefix is accepted
   with its trailing slashes removed; any other string is refused with an
   InvalidURLError whose message names the URL.
   */
  function ValidateUrl(url: string): (r: Result<string>)
    ensures r.Ok? <==> HasSupportedScheme(url)
    ensures r.Err? ==>
              r.error.kind == InvalidURLError && r.error.message == "Invalid URL: " + url
    ensures r.Ok? ==>
              StartsWith(url, r.value) && AllSlashes(url[|r.value|..]) && !EndsWithSlash(r.value)
  {
    if !HasSupportedScheme(url) then
      Err(Error(InvalidURLError, "Invalid URL: " + url))
    else
      Ok(StripTrailingSlashes(url))
  }

  /**
   An accepted URL is stripped exactly as `rstrip("/")` strips: the result is
   the one string that the URL extends by slashes only and that does not
   itself end in a slash.
   */
  lemma {:induction false} ValidateUrlStripsExactly(url: string, t: string)
    requires HasSupportedScheme(url)
    ensures ValidateUrl(url) == Ok(t) <==>
              (StartsWith(url, t) && AllSlashes(url[|t|..]) && !EndsWithSlash(t))
  {
    StripCharacterised(url, t);
  }

  /** An accepted URL without a trailing slash is kept as it is. */
  lemma {:induction false} ValidateUrlNoTrailingSlash(url: string)
    requires HasSupportedScheme(url) && !EndsWithSlash(url)
    ensures ValidateUrl(url) == Ok(url)
  {
    StripNoTrailingSlash(url);
  }

  /** Trailing slashes on the input do not change the stored URL. */
  lemma {:induction false} ValidateUrlIgnoresExtraSlashes(url: string, n: nat)
    requires HasSupportedScheme(url)
    ensures ValidateUrl(url + Slashes(n)) == ValidateUrl(url)
  {
    var u := url + Slashes(n);
    if StartsWith(url, HttpPrefix) {
      assert u[..|HttpPrefix|] == url[..|HttpPrefix|];
    } else {
      assert u[..|HttpsPrefix|] == url[..|HttpsPrefix|];
    }
    StripAppendSlashes(url, n);
  }

  /** Validating an already validated URL changes nothing further. */
  lemma {:induction false} ValidateUrlIdempotent(url: string)
    requires ValidateUrl(url).Ok? && HasSupportedScheme(ValidateUrl(url).value)
    ensures ValidateUrl(ValidateUrl(url).value) == ValidateUrl(url)
  {
    StripIdempotent(url);
  }

  /**
   When anything other than slashes follows the scheme, the stored URL keeps
   the full scheme prefix.
   */
  lemma {:induction false} ValidateUrlKeepsScheme(url: string, i: nat)
    requires HasSupportedScheme(url)
    requires |HttpPrefix| <= i < |url| && url[i] != '/'
    ensures ValidateUrl(url).Ok? && HasSupportedScheme(ValidateUrl(url).value)
  {
    if StartsWith(url, HttpPrefix) {
      StripKeepsPrefix(url, HttpPrefix, i);
    } else {
      assert url[7] == HttpsPrefix[7] == '/';
      StripKeepsPrefix(url, HttpsPrefix, i);
    }
  }

  /** The shortest URLs that keep their scheme: one host character after it. */
  lemma {:induction false} ValidateUrlOneCharHost()
    ensures ValidateUrl("http://a") == Ok("http://a")
    ensures ValidateUrl("http://a/") == Ok("http://a")
  {
    assert "http://a"[..|HttpPrefix|] == HttpPrefix;
    assert "http://a" + Slashes(1) == "http://a/";
    ValidateUrlNoTrailingSlash("http://a");
    ValidateUrlIgnoresExtraSlashes("http://a", 1);
  }

  /**
   There is no host check: a bare scheme followed only by slashes is accepted,
   and stripping eats the scheme's own slashes, leaving `http:` or `https:`.
   */
  lemma {:induction false} ValidateUrlBareScheme(n: nat)
    ensures ValidateUrl(HttpsPrefix + Slashes(n)) == Ok("https:")
    ensures ValidateUrl(HttpPrefix + Slashes(n)) == Ok("http:")
  {
    assert HttpsPrefix == "https:" + Slashes(2);
    assert HttpPrefix == "http:" + Slashes(2);
    assert HttpsPrefix + Slashes(n) == "https:" + Slashes(2 + n);
    assert HttpPrefix + Slashes(n) == "http:" + Slashes(2 + n);
    assert StartsWith(HttpsPrefix + Slashes(n), HttpsPrefix);
    assert StartsWith(HttpPrefix + Slashes(n), HttpPrefix);
    StripAppendSlashes("https:", 2 + n);
    StripAppendSlashes("http:", 2 + n);
    StripNoTrailingSlash("https:");
    StripNoTrailingSlash("http:");
  }

  /** A trailing slash is dropped; the same URL without one is kept. */
  lemma {:induction false} ValidateUrlODataExamples()
    ensures ValidateUrl("https://example.com/odata/") == Ok("https://example.com/odata")
    ensures ValidateUrl("https://example.com/odata") == Ok("https://example.com/odata")
  {
    var u := "https://example.com/odata";
    assert u[..|HttpsPrefix|] == HttpsPrefix;
    assert u + Slashes(1) == "https://example.com/odata/";
    ValidateUrlNoTrailingSlash(u);
    ValidateUrlIgnoresExtraSlashes(u, 1);
  }

  /** The scheme test is case-sensitive: an upper-case scheme is refused. */
  lemma UpperCaseSchemeRefused(rest: string)
    ensures ValidateUrl("HTTPS://" + rest) == Err(Error(InvalidURLError, "Invalid URL: HTTPS://" + rest))
  {
    assert ("HTTPS://" + rest)[0] == 'H';
  }

  /** Some other scheme, or no scheme at all, is refused. */
  lemma OtherSchemesRefused()
    ensures ValidateUrl("ftp://example.com/odata/").Err?
    ensures ValidateUrl("invalid_url").Err?
    ensures ValidateUrl("").Err?
  {
    var ftp := "ftp://example.com/odata/";
    assert ftp[..7][0] != HttpPrefix[0];
    assert ftp[..8][0] != HttpsPrefix[0];
  }

  /**
   The client object. Its one field, the base URL, is set once by the
   constructor from the validated URL.
   */
  class Dynite {
    var baseUrl: string

    /** The stored base URL never ends in a slash. */
    ghost predicate Valid()
      reads this
    {
      !EndsWithSlash(baseUrl)
    }

    /** `Dynite.__init__` on a URL it accepts. */
    constructor (url: string)
      requires HasSupportedScheme(url)
      ensures Valid()
      ensures Ok(baseUrl) == ValidateUrl(url)
    {
      baseUrl := StripTrailingSlashes(url);
    }

    /**
     `Dynite(base_url)` with its raising path: either a fresh client whose
     base URL is the validated URL, or the InvalidURLError the constructor
     raises, in which case no client is produced.
     */
    static method Create(url: string) returns (r: Result<Dynite>)
      ensures r.Ok? <==> HasSupportedScheme(url)
      ensures r.Ok? ==>
                fresh(r.value) && r.value.Valid() && Ok(r.value.baseUrl) == ValidateUrl(url)
      ensures r.Err? ==> Err(r.error) == ValidateUrl(url)
    {
      var v := ValidateUrl(url);
      if v.Err? {
        return Err(v.error);
      }
      var client := new Dynite(url);
      return Ok(client);
    }
  }
}
