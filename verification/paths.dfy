/** `BetterURL.resolve`: joining a base path and a relative path with exactly
    one slash between them. */
module Paths {
  import opened Js

  /** Every character of `s` is a slash (vacuously true of ""). */
  predicate AllSlashes(s: string)
  {
    forall i :: 0 <= i < |s| ==> s[i] == '/'
  }

  /** `a` is a suffix of `b`. */
  predicate IsSuffix(a: string, b: string)
  {
    |a| <= |b| && a == b[|b| - |a|..]
  }

  /** `s.replace(/\/+$/, "")`: `s` without its run of trailing slashes. */
  function StripTrailing(s: string): (r: string)
    ensures r <= s
    ensures AllSlashes(s[|r|..])
    ensures r == [] || r[|r| - 1] != '/'
  {
    if |s| > 0 && s[|s| - 1] == '/' then
      var r := StripTrailing(s[..|s| - 1]);
      assert s[|r|..] == s[..|s| - 1][|r|..] + ['/'];
      r
    else
      s
  }

  /** `s.replace(/^\/+/, "")`: `s` without its run of leading slashes. */
  function StripLeading(s: string): (r: string)
    ensures IsSuffix(r, s)
    ensures AllSlashes(s[..|s| - |r|])
    ensures r == [] || r[0] != '/'
  {
    if |s| > 0 && s[0] == '/' then
      var r := StripLeading(s[1..]);
      assert s[..|s| - |r|] == ['/'] + s[1..][..|s| - 1 - |r|];
      r
    else
      s
  }

  /** Any split of `s` into a part that does not end in a slash followed by
      slashes only is the split StripTrailing makes. */
  lemma StripTrailingUnique(s: string, p: string, t: string)
    requires s == p + t && AllSlashes(t)
    requires p == [] || p[|p| - 1] != '/'
    ensures StripTrailing(s) == p
  {
    var r := StripTrailing(s);
    assert r == s[..|r|] && p == s[..|p|];
  }

  /** Any split of `s` into slashes only followed by a part that does not
      start with a slash is the split StripLeading makes. */
  lemma StripLeadingUnique(s: string, t: string, q: string)
    requires s == t + q && AllSlashes(t)
    requires q == [] || q[0] != '/'
    ensures StripLeading(s) == q
  {
    var r := StripLeading(s);
    assert r == s[|s| - |r|..] && q == s[|s| - |q|..];
  }

  /** `r` is `base` and `relative` joined by the single slash at index `k`:
      `r[..k]` is `base` without some trailing slashes and does not end in a
      slash, `r[k + 1..]` is `relative` without some leading slashes and does
      not start with one. */
  predicate JoinedAt(r: string, base: string, relative: string, k: nat)
  {
    && k < |r| && r[k] == '/'
    && r[..k] <= base && AllSlashes(base[k..]) && (k == 0 || r[k - 1] != '/')
    && IsSuffix(r[k + 1..], relative)
    && AllSlashes(relative[..|relative| - (|r| - k - 1)])
    && (k + 1 == |r| || r[k + 1] != '/')
  }

  /** `BetterURL.resolve(baseURL, relativeURL)`: a truthy relative part is
      joined to the base with exactly one slash; an absent, null or empty
      relative part leaves the base unchanged. */
  function Resolve(base: string, relative: Nullable<string>): (r: string)
    ensures !Truthy(relative) ==> r == base
    ensures Truthy(relative) ==> JoinedAt(r, base, relative.value, |StripTrailing(base)|)
  {
    if Truthy(relative) then
      var p, q := StripTrailing(base), StripLeading(relative.value);
      assert (p + "/" + q)[..|p|] == p;
      assert (p + "/" + q)[|p| + 1..] == q;
      p + "/" + q
    else
      base
  }

  /** The join is determined by the decomposition of its two sides: whenever
      `base` is `p` followed by slashes with `p` not ending in one, and a
      non-empty `relative` is slashes followed by `q` not starting with one,
      the result is `p + "/" + q`. */
  lemma ResolveJunction(base: string, relative: string, p: string, t: string, u: string, q: string)
    requires base == p + t && AllSlashes(t) && (p == [] || p[|p| - 1] != '/')
    requires relative == u + q && AllSlashes(u) && (q == [] || q[0] != '/')
    requires relative != []
    ensures Resolve(base, Defined(relative)) == p + "/" + q
  {
    StripTrailingUnique(base, p, t);
    StripLeadingUnique(relative, u, q);
  }

  /** Appending slashes to the base does not change a join with a truthy
      relative part. */
  lemma ResolveIgnoresBasePadding(base: string, pad: string, relative: Nullable<string>)
    requires AllSlashes(pad) && Truthy(relative)
    ensures Resolve(base + pad, relative) == Resolve(base, relative)
  {
    var p := StripTrailing(base);
    var t := base[|p|..] + pad;
    assert base + pad == p + t;
    StripTrailingUnique(base + pad, p, t);
  }

  /** Prepending slashes to a non-empty relative part does not change the join. */
  lemma ResolveIgnoresRelativePadding(base: string, pad: string, relative: string)
    requires AllSlashes(pad) && relative != []
    ensures Resolve(base, Defined(pad + relative)) == Resolve(base, Defined(relative))
  {
    var q := StripLeading(relative);
    var u := pad + relative[..|relative| - |q|];
    assert pad + relative == u + q;
    StripLeadingUnique(pad + relative, u, q);
  }

  /** A base that is empty or all slashes (the root) yields a path that
      starts with exactly one slash. */
  lemma ResolveRootBase(base: string, relative: string)
    requires AllSlashes(base) && relative != []
    ensures Resolve(base, Defined(relative)) == "/" + StripLeading(relative)
  {
  }
}
