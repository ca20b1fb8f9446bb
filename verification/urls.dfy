/** The parsed URL as a record of component strings, and `BetterURL.format`,
    which renders a chosen subset of the components in a fixed order. */
module Urls {
  import opened Js
  import SearchParams

  /** The fields of a WHATWG `URL` value the core reads, as the parser left
      them: `protocol` ends in ":" (e.g. "https:"), `pathname` starts with
      "/" for special schemes such as http(s), `search` and `hash` are "" or
      start with "?" and "#", and `params` is the ordered `searchParams`
      list. */
  datatype Url = Url(
    href: string,
    protocol: string,
    username: string,
    password: string,
    hostname: string,
    port: string,
    pathname: string,
    search: string,
    hash: string,
    params: seq<SearchParams.Pair>)

  /** The options object of `format`; an omitted flag is `false`. There is
      no port flag. */
  datatype FormatOptions = FormatOptions(protocol: bool, hostname: bool, pathname: bool, search: bool, hash: bool)

  /** The components `format` can emit, in the order it emits them. */
  function Components(u: Url): seq<string>
  {
    [u.protocol, u.hostname, u.pathname, u.search, u.hash]
  }

  /** The flags of `opts`, aligned with `Components`. */
  function Flags(opts: FormatOptions): seq<bool>
  {
    [opts.protocol, opts.hostname, opts.pathname, opts.search, opts.hash]
  }

  /** The entries of `cs` whose flag is set, in order. */
  function Pick(cs: seq<string>, fs: seq<bool>): (r: seq<string>)
    requires |cs| == |fs|
  {
    if cs == [] then [] else (if fs[0] then [cs[0]] else []) + Pick(cs[1..], fs[1..])
  }

  /** The strings of `ss` joined with no separator. */
  function Concat(ss: seq<string>): string
  {
    if ss == [] then "" else ss[0] + Concat(ss[1..])
  }

  /** One line of `format`: `if (flag) str += c`. */
  function Emit(str: string, flag: bool, c: string): string
  {
    if flag then str + c else str
  }

  /** `url.format(opts)`: without an options object, the full `href`;
      otherwise the components whose flag is set, joined in the order
      protocol, hostname, pathname, search, hash. The protocol is emitted as
      the parser holds it ("https:", no "//"). */
  function Format(u: Url, opts: Nullable<FormatOptions>): (r: string)
    ensures !opts.Defined? ==> r == u.href
    ensures opts.Defined? ==> r == Concat(Pick(Components(u), Flags(opts.value)))
  {
    match opts
    case Defined(o) =>
      var s1 := Emit("", o.protocol, u.protocol);
      var s2 := Emit(s1, o.hostname, u.hostname);
      var s3 := Emit(s2, o.pathname, u.pathname);
      var s4 := Emit(s3, o.search, u.search);
      var s5 := Emit(s4, o.hash, u.hash);
      EmitsPick(u, o);
      s5
    case _ => u.href
  }

  /** The five `if (flag) str += c` lines of `format`, run from "", build
      the concatenation of the selected components. */
  lemma EmitsPick(u: Url, o: FormatOptions)
    ensures Emit(Emit(Emit(Emit(Emit("", o.protocol, u.protocol), o.hostname, u.hostname), o.pathname, u.pathname), o.search, u.search), o.hash, u.hash)
      == Concat(Pick(Components(u), Flags(o)))
  {
    var s1 := Emit("", o.protocol, u.protocol);
    var s2 := Emit(s1, o.hostname, u.hostname);
    var s3 := Emit(s2, o.pathname, u.pathname);
    var s4 := Emit(s3, o.search, u.search);
    var s5 := Emit(s4, o.hash, u.hash);
    var cs, fs := Components(u), Flags(o);
    var c1, f1 := cs[1..], fs[1..];
    var c2, f2 := c1[1..], f1[1..];
    var c3, f3 := c2[1..], f2[1..];
    var c4, f4 := c3[1..], f3[1..];
    assert "" + Concat(Pick(cs, fs)) == s1 + Concat(Pick(c1, f1)) by { PickStep("", cs, fs); }
    assert s1 + Concat(Pick(c1, f1)) == s2 + Concat(Pick(c2, f2)) by { PickStep(s1, c1, f1); }
    assert s2 + Concat(Pick(c2, f2)) == s3 + Concat(Pick(c3, f3)) by { PickStep(s2, c2, f2); }
    assert s3 + Concat(Pick(c3, f3)) == s4 + Concat(Pick(c4, f4)) by { PickStep(s3, c3, f3); }
    assert s4 + Concat(Pick(c4, f4)) == s5 by {
      PickStep(s4, c4, f4);
      assert c4[1..] == [] && f4[1..] == [];
    }
  }

  /** Emitting the first selected component onto an accumulated prefix
      keeps the prefix followed by the rest of the selection. */
  lemma {:induction false} PickStep(acc: string, cs: seq<string>, fs: seq<bool>)
    requires |cs| == |fs| > 0
    ensures acc + Concat(Pick(cs, fs)) == Emit(acc, fs[0], cs[0]) + Concat(Pick(cs[1..], fs[1..]))
  {
    var rest := Pick(cs[1..], fs[1..]);
    if fs[0] {
      var picked := [cs[0]] + rest;
      assert Pick(cs, fs) == picked;
      assert picked[0] == cs[0] && picked[1..] == rest;
      assert Concat(picked) == cs[0] + Concat(rest);
      assert acc + (cs[0] + Concat(rest)) == (acc + cs[0]) + Concat(rest);
    } else {
      assert Pick(cs, fs) == [] + rest == rest;
    }
  }

  /** Components whose flag is clear never influence the output: two URLs
      that agree on the selected components format alike, whatever their
      href, port, credentials or parameters. */
  lemma FormatIgnoresUnselected(u: Url, u': Url, o: FormatOptions)
    requires o.protocol ==> u.protocol == u'.protocol
    requires o.hostname ==> u.hostname == u'.hostname
    requires o.pathname ==> u.pathname == u'.pathname
    requires o.search ==> u.search == u'.search
    requires o.hash ==> u.hash == u'.hash
    ensures Format(u, Defined(o)) == Format(u', Defined(o))
  {
  }

  /** An options object with no flag set renders as "". */
  lemma FormatEmptyOptions(u: Url)
    ensures Format(u, Defined(FormatOptions(false, false, false, false, false))) == ""
  {
  }
}
