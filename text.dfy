/**
 The two string operations the client's URL validation relies on, as Python's
 `str.startswith` and `str.rstrip("/")` behave on them: a literal,
 case-sensitive prefix test, and removal of every trailing `/`.
 */
module Text {

  /** True if `prefix` is a prefix of `s` (Python's `s.startswith(prefix)`). */
  predicate StartsWith(s: string, prefix: string) {
    |prefix| <= |s| && s[..|prefix|] == prefix
  }

  predicate EndsWithSlash(s: string) {
    |s| > 0 && s[|s| - 1] == '/'
  }

  /** Every character of `s` is a `/`. */
  predicate AllSlashes(s: string) {
    forall i :: 0 <= i < |s| ==> s[i] == '/'
  }

  /** `n` slash characters. */
  function Slashes(n: nat): (r: string)
    ensures |r| == n && AllSlashes(r)
  {
    seq(n, _ => '/')
  }

  /**
   Python's `s.rstrip("/")`: `s` with every trailing `/` removed. The result
   is a prefix of `s`, what was removed consists of slashes only, and the
   result does not end in a slash.
   */
  function StripTrailingSlashes(s: string): (r: string)
    ensures StartsWith(s, r)
    ensures AllSlashes(s[|r|..])
    ensures !EndsWithSlash(r)
  {
    if EndsWithSlash(s) then StripTrailingSlashes(s[..|s| - 1]) else s
  }

  /**
   The three properties of StripTrailingSlashes pin the result down: `t` is
   the stripped form of `s` exactly when `s` is `t` followed by slashes only
   and `t` does not end in a slash.
   */
  lemma {:induction false} StripCharacterised(s: string, t: string)
    ensures StripTrailingSlashes(s) == t <==>
              (StartsWith(s, t) && AllSlashes(s[|t|..]) && !EndsWithSlash(t))
  {
    if StartsWith(s, t) && AllSlashes(s[|t|..]) && !EndsWithSlash(t) {
      StripUnique(s, t);
    }
  }

  lemma {:induction false} StripUnique(s: string, t: string)
    requires StartsWith(s, t) && AllSlashes(s[|t|..]) && !EndsWithSlash(t)
    ensures StripTrailingSlashes(s) == t
  {
    if |s| == |t| {
      assert s == t;
    } else {
      assert s[|s| - 1] == s[|t|..][|s| - 1 - |t|];
      var s' := s[..|s| - 1];
      assert s'[..|t|] == t;
      assert s'[|t|..] == s[|t|..|s| - 1];
      StripUnique(s', t);
    }
  }

  /** Stripping twice strips nothing more. */
  lemma {:induction false} StripIdempotent(s: string)
    ensures StripTrailingSlashes(StripTrailingSlashes(s)) == StripTrailingSlashes(s)
  {
    var r := StripTrailingSlashes(s);
    assert r[..|r|] == r;
    assert r[|r|..] == [];
    StripUnique(r, r);
  }

  /** A string that does not end in a slash is returned unchanged. */
  lemma {:induction false} StripNoTrailingSlash(s: string)
    requires !EndsWithSlash(s)
    ensures StripTrailingSlashes(s) == s
  {
    assert s[..|s|] == s;
    assert s[|s|..] == [];
    StripUnique(s, s);
  }

  /** Appending any number of slashes does not change the stripped form. */
  lemma {:induction false} StripAppendSlashes(s: string, n: nat)
    ensures StripTrailingSlashes(s + Slashes(n)) == StripTrailingSlashes(s)
  {
    var t := StripTrailingSlashes(s);
    var u := s + Slashes(n);
    assert u[..|t|] == s[..|t|];
    assert u[|t|..] == s[|t|..] + Slashes(n);
    StripUnique(u, t);
  }

  /**
   Stripping keeps a prefix that ends in a slash (a URL scheme such as
   `https://`) when some character after it is not a slash.
   */
  lemma {:induction false} StripKeepsPrefix(s: string, p: string, i: nat)
    requires StartsWith(s, p)
    requires |p| <= i < |s| && s[i] != '/'
    ensures StartsWith(StripTrailingSlashes(s), p)
  {
    var r := StripTrailingSlashes(s);
    forall j | |r| <= j < |s|
      ensures s[j] == '/'
    {
      assert s[j] == s[|r|..][j - |r|];
    }
    assert i < |r|;
    assert r[..|p|] == s[..|r|][..|p|] == s[..|p|];
  }
}
