/** A `URLSearchParams` list as an ordered sequence of name-value pairs (names
    may repeat), the list operations the constructor uses (`has`, `get`,
    `set`), and the constructor's merge of a base URL's parameters into the
    parsed result's. */
module SearchParams {
  import opened Js

  /** One name-value pair of a query string. */
  type Pair = (string, string)

  /** The names occurring in a parameter list. */
  function Keys(ps: seq<Pair>): set<string>
  {
    if ps == [] then {} else {ps[0].0} + Keys(ps[1..])
  }

  /** `params.has(name)`: some pair carries the name. */
  predicate Has(ps: seq<Pair>, k: string)
  {
    k in Keys(ps)
  }

  /** Position of the first pair named `k`, or `|ps|` when there is none. */
  function IndexOf(ps: seq<Pair>, k: string): (i: nat)
    ensures i <= |ps| && (i < |ps| <==> Has(ps, k))
    ensures i < |ps| ==> ps[i].0 == k
    ensures forall j :: 0 <= j < i ==> ps[j].0 != k
  {
    if ps == [] then 0
    else if ps[0].0 == k then 0
    else 1 + IndexOf(ps[1..], k)
  }

  /** `params.get(name)`: the value of the first pair named `k`, `null` when
      there is none. */
  function Get(ps: seq<Pair>, k: string): (r: Nullable<string>)
    ensures Has(ps, k) ==> r == Defined(ps[IndexOf(ps, k)].1)
    ensures !Has(ps, k) ==> r == Null
  {
    if ps == [] then Null
    else if ps[0].0 == k then Defined(ps[0].1)
    else Get(ps[1..], k)
  }

  /** `params.getAll(name).length`: how many pairs are named `k`. */
  function Count(ps: seq<Pair>, k: string): (n: nat)
    ensures n <= |ps|
    ensures n == 0 <==> !Has(ps, k)
  {
    if ps == [] then 0
    else (if ps[0].0 == k then 1 else 0) + Count(ps[1..], k)
  }

  lemma {:induction false} KeysAppend(a: seq<Pair>, b: seq<Pair>)
    ensures Keys(a + b) == Keys(a) + Keys(b)
    decreases |a|
  {
    if a == [] {
      assert a + b == b;
    } else {
      assert (a + b)[1..] == a[1..] + b;
      KeysAppend(a[1..], b);
    }
  }

  lemma {:induction false} GetAppend(a: seq<Pair>, b: seq<Pair>, k: string)
    ensures Get(a + b, k) == if Has(a, k) then Get(a, k) else Get(b, k)
    decreases |a|
  {
    if a == [] {
      assert a + b == b;
    } else {
      assert (a + b)[1..] == a[1..] + b;
      GetAppend(a[1..], b, k);
    }
  }

  lemma {:induction false} CountAppend(a: seq<Pair>, b: seq<Pair>, k: string)
    ensures Count(a + b, k) == Count(a, k) + Count(b, k)
    decreases |a|
  {
    if a == [] {
      assert a + b == b;
    } else {
      assert (a + b)[1..] == a[1..] + b;
      CountAppend(a[1..], b, k);
    }
  }

  /** The pairs of `ps` not named `k`, in order. */
  function RemoveAll(ps: seq<Pair>, k: string): (r: seq<Pair>)
    ensures Keys(r) == Keys(ps) - {k}
    ensures forall k' :: k' != k ==> Get(r, k') == Get(ps, k') && Count(r, k') == Count(ps, k')
    ensures !Has(ps, k) ==> r == ps
  {
    if ps == [] then []
    else if ps[0].0 == k then RemoveAll(ps[1..], k)
    else
      var r := [ps[0]] + RemoveAll(ps[1..], k);
      assert ps == [ps[0]] + ps[1..];
      assert r[1..] == RemoveAll(ps[1..], k);
      assert forall k' :: k' != k ==> Get(r, k') == Get(ps, k') && Count(r, k') == Count(ps, k') by {
        forall k' | k' != k
          ensures Get(r, k') == Get(ps, k') && Count(r, k') == Count(ps, k')
        {
          assert r[0] == ps[0];
        }
      }
      r
  }

  /** Removing the pairs named `k` from a concatenation removes them from
      each part. */
  lemma {:induction false} RemoveAllAppend(a: seq<Pair>, b: seq<Pair>, k: string)
    ensures RemoveAll(a + b, k) == RemoveAll(a, k) + RemoveAll(b, k)
    decreases |a|
  {
    if a == [] {
      assert a + b == b;
    } else {
      assert (a + b)[1..] == a[1..] + b;
      RemoveAllAppend(a[1..], b, k);
    }
  }

  /** The first pair named `k` takes the value `v`, in place; the other
      pairs named `k` are removed, and every pair with another name keeps
      its place relative to the others. */
  function ReplaceFirst(ps: seq<Pair>, k: string, v: string): (r: seq<Pair>)
    requires Has(ps, k)
    ensures Keys(r) == Keys(ps)
    ensures Get(r, k) == Defined(v) && Count(r, k) == 1
    ensures forall k' :: k' != k ==> Get(r, k') == Get(ps, k') && Count(r, k') == Count(ps, k')
    ensures IndexOf(r, k) == IndexOf(ps, k)
    ensures RemoveAll(r, k) == RemoveAll(ps, k)
  {
    if ps[0].0 == k then
      var r := [(k, v)] + RemoveAll(ps[1..], k);
      assert r[1..] == RemoveAll(ps[1..], k);
      r
    else
      var r := [ps[0]] + ReplaceFirst(ps[1..], k, v);
      assert r[1..] == ReplaceFirst(ps[1..], k, v);
      r
  }

  /** `params.set(name, value)`: if a pair is named `k`, the first such pair
      takes the value `v` in place and the others are removed; otherwise the
      pair is appended. Either way `k` ends up with exactly the one value `v`,
      and the pairs with other names are left as they were, in order. */
  function Set(ps: seq<Pair>, k: string, v: string): (r: seq<Pair>)
    ensures Keys(r) == Keys(ps) + {k}
    ensures Get(r, k) == Defined(v) && Count(r, k) == 1
    ensures forall k' :: k' != k ==> Get(r, k') == Get(ps, k') && Count(r, k') == Count(ps, k')
    ensures RemoveAll(r, k) == RemoveAll(ps, k)
    ensures Has(ps, k) ==> IndexOf(r, k) == IndexOf(ps, k)
    ensures !Has(ps, k) ==> r == ps + [(k, v)]
  {
    if Has(ps, k) then ReplaceFirst(ps, k, v)
    else
      RemoveAllAppend(ps, [(k, v)], k);
      KeysAppend(ps, [(k, v)]);
      GetAppend(ps, [(k, v)], k);
      CountAppend(ps, [(k, v)], k);
      assert forall k' :: k' != k ==> Get(ps + [(k, v)], k') == Get(ps, k') by {
        forall k' | k' != k { GetAppend(ps, [(k, v)], k'); }
      }
      assert forall k' :: k' != k ==> Count(ps + [(k, v)], k') == Count(ps, k') by {
        forall k' | k' != k { CountAppend(ps, [(k, v)], k'); }
      }
      ps + [(k, v)]
  }

  /** The constructor's merge loop
      `base.forEach((value, key) => { if (!own.has(key)) own.set(key, value); })`,
      starting from the parsed result's list `own`. The result extends `own`
      and carries the names of both lists. */
  function MergeParams(own: seq<Pair>, base: seq<Pair>): (r: seq<Pair>)
    ensures own <= r
    ensures Keys(r) == Keys(own) + Keys(base)
    decreases |base|
  {
    if base == [] then own
    else
      var (k, v) := base[0];
      var acc := if Has(own, k) then own else Set(own, k, v);
      var r := MergeParams(acc, base[1..]);
      assert own <= acc;
      r
  }

  /** Reference for what the merge appends: the pairs of `base` whose name is
      not in `seen` and does not occur earlier in `base`, in base order. */
  function FirstNew(seen: set<string>, base: seq<Pair>): seq<Pair>
    decreases |base|
  {
    if base == [] then []
    else if base[0].0 in seen then FirstNew(seen, base[1..])
    else [base[0]] + FirstNew(seen + {base[0].0}, base[1..])
  }

  /** Under the `has` guard `set` always appends, so the merge is the input's
      own list followed by the first occurrence of every base name the input
      lacks. */
  lemma {:induction false} MergeIsOwnThenFirstNew(own: seq<Pair>, base: seq<Pair>)
    ensures MergeParams(own, base) == own + FirstNew(Keys(own), base)
    decreases |base|
  {
    if base != [] {
      var k, v := base[0].0, base[0].1;
      if Has(own, k) {
        MergeIsOwnThenFirstNew(own, base[1..]);
      } else {
        var acc := own + [base[0]];
        var rest := FirstNew(Keys(own) + {k}, base[1..]);
        MergeStepNew(own, base);
        assert Keys(acc) == Keys(own) + {k} by {
          KeysAppend(own, [base[0]]);
        }
        MergeIsOwnThenFirstNew(acc, base[1..]);
        assert FirstNew(Keys(own), base) == [base[0]] + rest;
        assert acc + rest == own + ([base[0]] + rest);
      }
    }
  }

  /** One step of the merge on a name the list lacks appends its pair. */
  lemma MergeStepNew(own: seq<Pair>, base: seq<Pair>)
    requires base != [] && !Has(own, base[0].0)
    ensures MergeParams(own, base) == MergeParams(own + [base[0]], base[1..])
  {
    assert Set(own, base[0].0, base[0].1) == own + [base[0]];
  }

  /** The appended names are exactly the base names outside `seen`. */
  lemma {:induction false} FirstNewKeys(seen: set<string>, base: seq<Pair>)
    ensures Keys(FirstNew(seen, base)) == Keys(base) - seen
    decreases |base|
  {
    if base != [] {
      var k := base[0].0;
      if k in seen {
        FirstNewKeys(seen, base[1..]);
      } else {
        FirstNewKeys(seen + {k}, base[1..]);
        assert ([base[0]] + FirstNew(seen + {k}, base[1..]))[1..] == FirstNew(seen + {k}, base[1..]);
      }
    }
  }

  /** Each appended name appears once, with the value of its first
      occurrence in the base. */
  lemma {:induction false} FirstNewValues(seen: set<string>, base: seq<Pair>, k: string)
    requires Has(FirstNew(seen, base), k)
    ensures Count(FirstNew(seen, base), k) == 1
    ensures Get(FirstNew(seen, base), k) == Get(base, k)
    decreases |base|
  {
    var k0 := base[0].0;
    FirstNewKeys(seen, base);
    if k0 in seen {
      FirstNewValues(seen, base[1..], k);
    } else {
      var tail := FirstNew(seen + {k0}, base[1..]);
      assert FirstNew(seen, base) == [base[0]] + tail;
      assert ([base[0]] + tail)[1..] == tail;
      FirstNewKeys(seen + {k0}, base[1..]);
      if k != k0 {
        FirstNewValues(seen + {k0}, base[1..], k);
      }
    }
  }

  /** The appended pairs follow the order of their names' first occurrences
      in the base. */
  lemma {:induction false} FirstNewOrder(seen: set<string>, base: seq<Pair>)
    ensures var f := FirstNew(seen, base);
      forall i, j :: 0 <= i < j < |f| ==> IndexOf(base, f[i].0) < IndexOf(base, f[j].0)
    decreases |base|
  {
    if base != [] {
      var k0 := base[0].0;
      var seen' := seen + {k0};
      var tail := FirstNew(seen', base[1..]);
      assert tail == FirstNew(if k0 in seen then seen else seen', base[1..]) by {
        if k0 in seen { assert seen' == seen; }
      }
      FirstNewOrder(seen', base[1..]);
      FirstNewKeys(seen', base[1..]);
      forall i | 0 <= i < |tail|
        ensures IndexOf(base, tail[i].0) == 1 + IndexOf(base[1..], tail[i].0)
      {
        KeyInKeys(tail, i);
      }
      if k0 !in seen {
        ConsOrder(base, tail);
      }
    }
  }

  /** Putting the base's first pair in front of pairs whose names occur
      later in the base keeps the order of first occurrences. */
  lemma {:induction false} ConsOrder(base: seq<Pair>, tail: seq<Pair>)
    requires base != []
    requires forall i :: 0 <= i < |tail| ==> IndexOf(base, tail[i].0) == 1 + IndexOf(base[1..], tail[i].0)
    requires forall i, j :: 0 <= i < j < |tail| ==> IndexOf(base[1..], tail[i].0) < IndexOf(base[1..], tail[j].0)
    ensures var f := [base[0]] + tail;
      forall i, j :: 0 <= i < j < |f| ==> IndexOf(base, f[i].0) < IndexOf(base, f[j].0)
  {
    var f := [base[0]] + tail;
    forall i, j | 0 <= i < j < |f|
      ensures IndexOf(base, f[i].0) < IndexOf(base, f[j].0)
    {
      var kj := tail[j - 1].0;
      assert IndexOf(base, f[j].0) == 1 + IndexOf(base[1..], kj) by {
        assert f[j].0 == kj;
      }
      if i == 0 {
        assert IndexOf(base, f[i].0) == 0 by {
          assert f[i].0 == base[0].0;
        }
      } else {
        var ki := tail[i - 1].0;
        assert IndexOf(base, f[i].0) == 1 + IndexOf(base[1..], ki) by {
          assert f[i].0 == ki;
        }
        assert IndexOf(base[1..], ki) < IndexOf(base[1..], kj);
      }
    }
  }

  lemma {:induction false} KeyInKeys(ps: seq<Pair>, i: nat)
    requires i < |ps|
    ensures Has(ps, ps[i].0)
    decreases i
  {
    if i > 0 {
      KeyInKeys(ps[1..], i - 1);
    }
  }

  /** The input's own parameters win: a name the parsed result already has
      keeps its value and its number of pairs. */
  lemma MergeInputWins(own: seq<Pair>, base: seq<Pair>, k: string)
    requires Has(own, k)
    ensures Get(MergeParams(own, base), k) == Get(own, k)
    ensures Count(MergeParams(own, base), k) == Count(own, k)
  {
    var f := FirstNew(Keys(own), base);
    MergeIsOwnThenFirstNew(own, base);
    FirstNewKeys(Keys(own), base);
    GetAppend(own, f, k);
    CountAppend(own, f, k);
  }

  /** The base fills the gaps: a base name the parsed result lacks gains
      exactly one pair, carrying the value of the name's first occurrence in
      the base. */
  lemma MergeFillsFromBase(own: seq<Pair>, base: seq<Pair>, k: string)
    requires Has(base, k) && !Has(own, k)
    ensures Count(MergeParams(own, base), k) == 1
    ensures Get(MergeParams(own, base), k) == Get(base, k)
  {
    var f := FirstNew(Keys(own), base);
    MergeIsOwnThenFirstNew(own, base);
    FirstNewKeys(Keys(own), base);
    FirstNewValues(Keys(own), base, k);
    GetAppend(own, f, k);
    CountAppend(own, f, k);
  }

  /** The pairs appended after the parsed result's own list come in the
      order of their names' first occurrences in the base. */
  lemma MergeAppendOrder(own: seq<Pair>, base: seq<Pair>)
    ensures var r := MergeParams(own, base);
      forall i, j :: |own| <= i < j < |r| ==> IndexOf(base, r[i].0) < IndexOf(base, r[j].0)
  {
    var f := FirstNew(Keys(own), base);
    MergeIsOwnThenFirstNew(own, base);
    FirstNewOrder(Keys(own), base);
    var r := own + f;
    forall i, j | |own| <= i < j < |r|
      ensures IndexOf(base, r[i].0) < IndexOf(base, r[j].0)
    {
      assert r[i] == f[i - |own|] && r[j] == f[j - |own|];
    }
  }

  /** Merging the same base a second time changes nothing. */
  lemma MergeIdempotent(own: seq<Pair>, base: seq<Pair>)
    ensures MergeParams(MergeParams(own, base), base) == MergeParams(own, base)
  {
    var r := MergeParams(own, base);
    MergeIsOwnThenFirstNew(r, base);
    var f := FirstNew(Keys(r), base);
    FirstNewKeys(Keys(r), base);
    assert r + f == r;
  }
}
