# better-url in Dafny

A model of `BetterURL` from better-url (`src/index.ts`), a wrapper around the
WHATWG `URL` class. The wrapper changes three things:

- **Path joining.** `BetterURL.resolve(base, relative)` keeps the base's path as a
  prefix. It removes every trailing `/` of the base and every leading `/` of the
  relative part, then puts exactly one `/` between them. An absent, `null` or
  empty relative part returns the base unchanged.
- **Formatting.** `format(opts)` returns `href` when no options object is
  given. Otherwise it concatenates the components whose flag is set, always in
  the order protocol, hostname, pathname, search, hash. The protocol is emitted
  bare (`https:`).
- **Construction.** With an `undefined` or `null` base the input is parsed
  alone. Any other base, including `""`, is parsed first. Then the string
  `resolve(protocol + hostname + pathname of the base, input)` is parsed. Last,
  each base query parameter whose name the result lacks is added to the result.

The model has five modules, one per concept:

- `Js` (js.dfy): `undefined`/`null`/defined arguments, truthiness, and the
  `Result` of a call that may throw.
- `Paths` (paths.dfy): `StripTrailing`, `StripLeading` and `Resolve`.
- `SearchParams` (search_params.dfy): the `URLSearchParams` list as a
  `seq<(string, string)>`, with `has`, `get`, `set` and the merge loop
  `MergeParams`. `FirstNew` is an independent reference for what the merge
  appends.
- `Urls` (urls.dfy): the parsed `Url` record and `Format`.
- `BetterUrl` (better_url.dfy): the base dispatch, the pre-parse string
  `PreParse`, and `Construct`.

The WHATWG parser is a parameter `parse: string -> Result<Url>` of
`Construct`. Its `Err` stands for the TypeError that `new URL` throws.

Some behaviours of the code are easy to miss:

- The input is appended to the base even when it is a full URL: an input
  like `https://flyyer.io/x` ends up after the base's path
  (`AbsoluteInputIsAppended`).
- The query merge always runs in the based branch.
- `format` has no port flag and emits the protocol without `//`.
- An empty-string base takes the based branch; it is not treated as "no base".

One consequence is proved rather than assumed: the base's port, credentials,
search and hash never reach the pre-parse string, the string handed to the
second parse at src/index.ts:9 (`PreParseIgnoresOtherComponents`). The first
parse at src/index.ts:8 still sees the whole base string, and the base's
query parameters still reach the result through the merge.

## Model

| member | source | states |
|---|---|---|
| Paths.StripTrailing | src/index.ts:66 | `base.replace(/\/+$/, "")` yields a prefix of its argument that is empty or does not end in `/`, and everything it drops is `/` |
| Paths.StripLeading | src/index.ts:66 | `relative.replace(/^\/+/, "")` yields a suffix of its argument that is empty or does not start with `/`, and everything it drops is `/` |
| Paths.StripTrailingUnique | src/index.ts:66 | any split of a string into a part not ending in `/` followed by slashes only is exactly the split the trailing-slash removal makes |
| Paths.StripLeadingUnique | src/index.ts:66 | any split of a string into slashes only followed by a part not starting with `/` is exactly the split the leading-slash removal makes |
| Paths.Resolve | src/index.ts:65-67 | an absent, null or empty relative part returns the base unchanged; otherwise the result has one `/` at the junction, with a slash-free-ending prefix of the base before it and a slash-free-starting suffix of the relative part after it |
| Paths.ResolveJunction | src/index.ts:66 | for every base `p + slashes` (p not ending in `/`) and non-empty relative `slashes + q` (q not starting with `/`), the join is exactly `p + "/" + q` |
| Paths.ResolveIgnoresBasePadding | src/index.ts:66 | appending any run of slashes to the base does not change a join with a truthy relative part |
| Paths.ResolveIgnoresRelativePadding | src/index.ts:66 | prepending any run of slashes to a non-empty relative part does not change the join |
| Paths.ResolveRootBase | src/index.ts:66 | an empty or all-slash base yields `"/"` followed by the relative part without its leading slashes, so the path starts with exactly one `/` |
| Urls.Format | src/index.ts:69-85 | with no options object the result is `href`; otherwise it is the concatenation, in the order protocol, hostname, pathname, search, hash, of exactly the components whose flag is set |
| Urls.EmitsPick | src/index.ts:77-84 | the five `if (flag) str += component` lines, run from `""`, produce exactly the selected components concatenated in order |
| Urls.FormatIgnoresUnselected | src/index.ts:77-84 | components whose flag is clear never influence the output: URLs agreeing on the selected components format alike |
| Urls.FormatEmptyOptions | src/index.ts:77-84 | an options object with no flag set renders as `""` |
| SearchParams.Set | src/index.ts:12 | `searchParams.set` leaves the name with exactly one pair carrying the new value, at the position of its first pair when it was present and appended at the end otherwise; the pairs with other names stay exactly as they were, in order |
| SearchParams.MergeParams | src/index.ts:10-14 | the merge loop, with `searchParams.has` (`Has`) guarding each `set`, keeps the parsed result's own list as a prefix, and the result's names are the union of both lists' names |
| SearchParams.MergeIsOwnThenFirstNew | src/index.ts:10-14 | because `has` guards every `set`, the merge is the result's own list followed by the first occurrence of every base name it lacks, in base order |
| SearchParams.MergeInputWins | src/index.ts:10-14 | a name the parsed input already has keeps its first value and its number of pairs |
| SearchParams.MergeFillsFromBase | src/index.ts:10-14 | a base name the parsed input lacks gains exactly one pair, carrying the value of the name's first occurrence in the base |
| SearchParams.MergeAppendOrder | src/index.ts:10-14 | the pairs appended after the input's own list follow the order of their names' first occurrences in the base |
| SearchParams.MergeIdempotent | src/index.ts:10-14 | merging the same base a second time changes nothing |
| BetterUrl.TakesNoBaseBranch | src/index.ts:5 | the guard `!base && base !== ""` holds exactly for an undefined or null base, so `""` and every other base take the based branch |
| BetterUrl.PreParse | src/index.ts:8-9 | the string parsed in the based branch is `resolve` of the base's protocol + hostname + pathname with the raw input: unchanged for an empty input, joined by one `/` otherwise |
| BetterUrl.PreParseJoin | src/index.ts:9 | for every base part `p + slashes` (p not ending in `/`) and every non-empty input `slashes + q` (q not starting with `/`, possibly empty), the pre-parse string is exactly `p + "/" + q` |
| BetterUrl.PreParseIgnoresOtherComponents | src/index.ts:9 | bases that agree on protocol, hostname and pathname give the same pre-parse string, whatever their href, credentials, port, search, hash or parameters |
| BetterUrl.AbsoluteInputIsAppended | src/index.ts:9 | every non-empty input not starting with `/`, a full URL included, is appended verbatim after the base's protocol, hostname and path without their trailing slashes, and one `/` |
| BetterUrl.AbsoluteInputExample | src/index.ts:9 | one instance: `https://flyyer.io/subpath` on a base with path `/path` gives `"https:example.com/path/https://flyyer.io/subpath"` |
| BetterUrl.SlashesOnlyInput | src/index.ts:66 | an input of slashes only, `"///"`, on a base with path `/path` still gets the joining slash: `"https:example.com/path/"` |
| BetterUrl.Construct | src/index.ts:4-16 | no base: the input's parse; otherwise the base is parsed from `String(base)` (`BaseString`: the string itself, or a URL object's href), a failure to parse it or the pre-parse string propagates, and on success the result is the parsed pre-parse string with the parsed input's params kept as a prefix and the names of both lists |
| BetterUrl.ConstructMergesQuery | src/index.ts:10-14 | in the based branch the input's value wins on a shared name, and a base-only name appears once with its first base value |
| BetterUrl.PreParseRootBase | __tests__/index.ts:4-7 | `"/hello"` on a base parsed as `https:` / `example.com` / `/` gives the pre-parse string `"https:example.com/hello"` |
| BetterUrl.PreParseKeepsBasePath | __tests__/index.ts:9-12 | `"/hello"` on base path `/path` gives `"https:example.com/path/hello"` |
| BetterUrl.PreParseCollapsesSlashes | __tests__/index.ts:14-17 | `"///hello"` on base path `/path/` gives `"https:example.com/path/hello"` |
| BetterUrl.MergeBaseOnly | __tests__/index.ts:19-22 | a base-only parameter `q=hello` is carried over to an input without parameters |
| BetterUrl.MergeSharedName | __tests__/index.ts:24-27 | merging base `q=hello&desc=desc` into `q=bye&title=title` gives `q=bye&title=title&desc=desc`: the input's `q` wins and `desc` is appended |

## Left out

- The WHATWG parser (`new URL` at src/index.ts:6 and src/index.ts:9) is a parameter. Parsing, percent-encoding, host normalisation and the exception are its business. So is turning `https:example.com/...` into `https://example.com/...`.
- BetterUrl.Construct: after the merge, `URLSearchParams` re-serialises the list into the URL's `search` and `href`. The model leaves that serialisation out. `Construct` replaces only `params`, and its `search` and `href` stay as the parser produced them.
- The passthrough getters, `toJSON` and `toString` (src/index.ts:18-59) are field projections of the record. `host` and `origin` are not fields of the record, because no modelled operation reads them.
- `isEqual` (src/index.ts:61-63) is a bare `href` comparison.
- `this.search ?? ""` (src/index.ts:82): the parser always supplies a string for `search`, so the record's `search` is a `string` and the `??` never fires.
- The format flags are `bool`, matching their TypeScript type; other truthy values are not modelled.
- The constructor's `input` is a `string`, matching its TypeScript type. `base` is a string or a URL object, and `String(base)` of a URL object is its `href`.
