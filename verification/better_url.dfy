/** The `BetterURL` constructor: the dispatch on `base`, the string handed to
    the WHATWG parser in the based branch, and the merge of the base's query
    parameters into the result. The parser itself is a parameter
    `parse: string -> Result<Url>`: `Err` is the TypeError `new URL` throws. */
module BetterUrl {
  import opened Js
  import opened Paths
  import opened Urls
  import opened SearchParams

  /** A `base` argument that is present: a string or a URL object. */
  datatype BaseValue = Text(s: string) | Object(url: Url)

  /** `String(base)`: a URL object stringifies to its href. */
  function BaseString(b: BaseValue): string
  {
    match b
    case Text(s) => s
    case Object(u) => u.href
  }

  /** JavaScript falsiness of `base`: `undefined`, `null` and `""`. */
  predicate Falsy(base: Nullable<BaseValue>)
  {
    match base
    case Undefined => true
    case Null => true
    case Defined(Text(s)) => s == ""
    case Defined(Object(_)) => false
  }

  /** The guard `!base && base !== ""` of the no-base branch: it holds for
      an undefined or null base only, so `""` takes the based branch. */
  function TakesNoBaseBranch(base: Nullable<BaseValue>): (r: bool)
    ensures r <==> base == Undefined || base == Null
  {
    Falsy(base) && base != Defined(Text(""))
  }

  /** The options `{ protocol: true, hostname: true, pathname: true }`. */
  const OriginAndPath := FormatOptions(true, true, true, false, false)

  /** The string the based branch hands to the parser: the base's protocol,
      hostname and pathname, joined by `resolve` with the raw input. An
      empty input leaves the base part as it is; any other input is appended
      after exactly one slash, whatever it looks like. */
  function PreParse(b: Url, input: string): (s: string)
    ensures s == Resolve(b.protocol + b.hostname + b.pathname, Defined(input))
    ensures input == "" ==> s == b.protocol + b.hostname + b.pathname
    ensures input != "" ==>
      JoinedAt(s, b.protocol + b.hostname + b.pathname, input, |StripTrailing(b.protocol + b.hostname + b.pathname)|)
  {
    var origin := Format(b, Defined(OriginAndPath));
    assert origin == b.protocol + b.hostname + b.pathname;
    Resolve(origin, Defined(input))
  }

  /** `new BetterURL(input, base)`. Without a base the input is parsed
      alone. Otherwise the base is parsed (`new BetterURL(String(base))`),
      the pre-parse string is parsed, and every base parameter whose name
      the result lacks is added to it; the other components are the
      parser's. Either parse may throw, and the error propagates. */
  function Construct(parse: string -> Result<Url>, input: string, base: Nullable<BaseValue>): (r: Result<Url>)
    ensures TakesNoBaseBranch(base) ==> r == parse(input)
    ensures !TakesNoBaseBranch(base) ==>
      var pb := parse(BaseString(base.value));
      && (pb.Err? ==> r == Err(pb.error))
      && (pb.Ok? ==>
            var pu := parse(PreParse(pb.value, input));
            && (pu.Err? ==> r == Err(pu.error))
            && (pu.Ok? ==>
                  && r.Ok?
                  && r.value.(params := pu.value.params) == pu.value
                  && pu.value.params <= r.value.params
                  && Keys(r.value.params) == Keys(pu.value.params) + Keys(pb.value.params)))
  {
    if TakesNoBaseBranch(base) then
      parse(input)
    else
      match parse(BaseString(base.value))
      case Err(e) => Err(e)
      case Ok(b) =>
        match parse(PreParse(b, input))
        case Err(e) => Err(e)
        case Ok(u) => Ok(u.(params := MergeParams(u.params, b.params)))
  }

  /** Only the base's protocol, hostname and pathname reach the pre-parse
      string of the second parse: its href, credentials, port, search, hash
      and parameters do not. (The base's parameters reach the result through
      the merge instead.) */
  lemma PreParseIgnoresOtherComponents(b: Url, b': Url, input: string)
    requires b.protocol == b'.protocol && b.hostname == b'.hostname && b.pathname == b'.pathname
    ensures PreParse(b, input) == PreParse(b', input)
  {
  }

  /** In the based branch the result's parameters are the parsed input's,
      followed by the first value of every base name the input lacks: the
      input wins on shared names, and the base fills the gaps once each. */
  lemma ConstructMergesQuery(parse: string -> Result<Url>, input: string, base: BaseValue, k: string)
    requires parse(BaseString(base)).Ok?
    requires parse(PreParse(parse(BaseString(base)).value, input)).Ok?
    ensures var b, u := parse(BaseString(base)).value, parse(PreParse(parse(BaseString(base)).value, input)).value;
      var r := Construct(parse, input, Defined(base));
      && r.Ok?
      && (Has(u.params, k) ==> Get(r.value.params, k) == Get(u.params, k) && Count(r.value.params, k) == Count(u.params, k))
      && (Has(b.params, k) && !Has(u.params, k) ==> Get(r.value.params, k) == Get(b.params, k) && Count(r.value.params, k) == 1)
  {
    var b, u := parse(BaseString(base)).value, parse(PreParse(parse(BaseString(base)).value, input)).value;
    if Has(u.params, k) {
      MergeInputWins(u.params, b.params, k);
    } else if Has(b.params, k) {
      MergeFillsFromBase(u.params, b.params, k);
    }
  }

  /** The pre-parse string of a based construction for a non-empty input:
      whenever the base's protocol + hostname + pathname is `p` followed by
      slashes (`p` not ending in one) and the input is slashes followed by
      `q` (`q` not starting with one), it is `p + "/" + q`. An input made of
      slashes only has `q == ""` and gives `p + "/"`. */
  lemma PreParseJoin(b: Url, input: string, p: string, t: string, u: string, q: string)
    requires b.protocol + b.hostname + b.pathname == p + t && AllSlashes(t) && (p == [] || p[|p| - 1] != '/')
    requires input == u + q && AllSlashes(u) && (q == [] || q[0] != '/')
    requires input != []
    ensures PreParse(b, input) == p + "/" + q
  {
    ResolveJunction(b.protocol + b.hostname + b.pathname, input, p, t, u, q);
  }

  /** There is no absolute-input bypass: any non-empty input that does not
      start with a slash, a full URL such as "https://flyyer.io/x" included,
      is appended verbatim after the base's protocol, hostname and path
      without their trailing slashes, and one slash. */
  lemma AbsoluteInputIsAppended(b: Url, input: string)
    requires input != [] && input[0] != '/'
    ensures PreParse(b, input) == StripTrailing(b.protocol + b.hostname + b.pathname) + "/" + input
  {
    var base := b.protocol + b.hostname + b.pathname;
    var p := StripTrailing(base);
    assert base == p + base[|p|..];
    PreParseJoin(b, input, p, base[|p|..], "", input);
  }

  /** `p + t` spells `whole`, `p` is non-empty and does not end in a slash,
      and `t` is slashes only: the shape of the literal bases below. */
  predicate SplitsTrailing(whole: string, p: string, t: string)
  {
    whole == p + t && AllSlashes(t) && p != [] && p[|p| - 1] != '/'
  }

  /** `u + q` spells `whole`, `u` is slashes only, and `q` is non-empty and
      does not start with a slash: the shape of the literal inputs below. */
  predicate SplitsLeading(whole: string, u: string, q: string)
  {
    whole == u + q && AllSlashes(u) && q != [] && q[0] != '/'
  }

  /** The base part of the first scenario splits as "https:example.com"
      and "/", and its join with "hello" spelled out. */
  lemma SplitRootBase()
    ensures SplitsTrailing("https:" + "example.com" + "/", "https:example.com", "/")
    ensures "https:example.com" + "/" + "hello" == "https:example.com/hello"
  {
  }

  /** The base part with path "/path" has no trailing slash, and its join
      with "hello" spelled out. */
  lemma SplitPathBase()
    ensures SplitsTrailing("https:" + "example.com" + "/path", "https:example.com/path", "")
    ensures "https:example.com/path" + "/" + "hello" == "https:example.com/path/hello"
  {
  }

  /** The base part with path "/path/" splits as "https:example.com/path"
      and "/". */
  lemma SplitPathSlashBase()
    ensures SplitsTrailing("https:" + "example.com" + "/path/", "https:example.com/path", "/")
  {
  }

  /** "/hello" and "///hello" split into their leading slashes and
      "hello". */
  lemma SplitHello()
    ensures SplitsLeading("/hello", "/", "hello")
    ensures SplitsLeading("///hello", "///", "hello")
  {
  }

  /** The join of "https:example.com/path" and a full URL spelled out. */
  lemma JoinAbsolute()
    ensures "https:example.com/path" + "/" + "https://flyyer.io/subpath" == "https:example.com/path/https://flyyer.io/subpath"
  {
  }

  /** First scenario of the test suite: "/hello" on "https://example.com",
      whose parse has pathname "/". The protocol is emitted without "//";
      turning "https:example.com/hello" back into
      "https://example.com/hello" is the parser's doing. */
  lemma PreParseRootBase(b: Url)
    requires b.protocol == "https:" && b.hostname == "example.com" && b.pathname == "/"
    ensures PreParse(b, "/hello") == "https:example.com/hello"
  {
    SplitRootBase();
    SplitHello();
    PreParseJoin(b, "/hello", "https:example.com", "/", "/", "hello");
  }

  /** Second scenario: "/hello" on "https://example.com/path" keeps the
      base path. */
  lemma PreParseKeepsBasePath(b: Url)
    requires b.protocol == "https:" && b.hostname == "example.com" && b.pathname == "/path"
    ensures PreParse(b, "/hello") == "https:example.com/path/hello"
  {
    SplitPathBase();
    SplitHello();
    PreParseJoin(b, "/hello", "https:example.com/path", "", "/", "hello");
  }

  /** Third scenario: "///hello" on "https://example.com/path/" collapses
      the slashes on both sides to one. */
  lemma PreParseCollapsesSlashes(b: Url)
    requires b.protocol == "https:" && b.hostname == "example.com" && b.pathname == "/path/"
    ensures PreParse(b, "///hello") == "https:example.com/path/hello"
  {
    SplitPathSlashBase();
    SplitPathBase();
    SplitHello();
    PreParseJoin(b, "///hello", "https:example.com/path", "/", "///", "hello");
  }

  /** One instance of `AbsoluteInputIsAppended`: the full URL
      "https://flyyer.io/subpath" on a base with path "/path" is appended
      after "https:example.com/path/". */
  lemma AbsoluteInputExample(b: Url)
    requires b.protocol == "https:" && b.hostname == "example.com" && b.pathname == "/path"
    ensures PreParse(b, "https://flyyer.io/subpath") == "https:example.com/path/https://flyyer.io/subpath"
  {
    SplitPathBase();
    StripTrailingUnique(b.protocol + b.hostname + b.pathname, "https:example.com/path", "");
    AbsoluteInputIsAppended(b, "https://flyyer.io/subpath");
    JoinAbsolute();
  }

  /** An input made only of slashes still gets the joining slash: "///" on
      a base with path "/path" gives "https:example.com/path/". */
  lemma SlashesOnlyInput(b: Url)
    requires b.protocol == "https:" && b.hostname == "example.com" && b.pathname == "/path"
    ensures PreParse(b, "///") == "https:example.com/path/"
  {
    SplitPathBase();
    assert AllSlashes("///");
    PreParseJoin(b, "///", "https:example.com/path", "", "///", "");
  }

  /** Fourth scenario of the test suite: a base-only parameter `q=hello`
      is carried over to an input without parameters. */
  lemma MergeBaseOnly()
    ensures MergeParams([], [("q", "hello")]) == [("q", "hello")]
  {
  }

  /** Fifth scenario: merging base `q=hello&desc=desc` into
      `q=bye&title=title`, the input's `q` wins and the base's `desc` is
      appended. */
  lemma MergeSharedName()
    ensures MergeParams([("q", "bye"), ("title", "title")], [("q", "hello"), ("desc", "desc")])
      == [("q", "bye"), ("title", "title"), ("desc", "desc")]
  {
  }
}
