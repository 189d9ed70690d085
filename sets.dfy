/** The four Glushkov sets of a sub-expression: P (first positions), L (the empty
    string when the sub-expression is nullable), D (last positions) and F (pairs of
    consecutive positions, tagged with the rule that joined them). */
module GlushkovSets {
  import opened Util
  import opened Tokens
  import opened TokenStrings

  datatype Sets = Sets(p: set<TokenString>, l: set<TokenString>, d: set<TokenString>, f: set<TokenString>)

  /** new Sets(): all four sets empty. */
  const NoSets: Sets := Sets({}, {}, {}, {})

  predicate Sorted(xs: seq<TokenString>) {
    forall i, j :: 0 <= i < j < |xs| ==> CompareTo(xs[i], xs[j]) <= 0
  }

  /** `xs` lists every element of `s` once, in compareTo order. */
  predicate SortedListing(xs: seq<TokenString>, s: set<TokenString>) {
    multiset(xs) == multiset(s) && Sorted(xs)
  }

  /** Every id in every token string of `s` is one compareTo can subtract safely. */
  predicate SetIdsInRange(s: set<TokenString>) {
    forall x :: x in s ==> IdsInRange(x.tokens)
  }

  /** Arrays.toString of an array of token strings. */
  function Render(xs: seq<TokenString>): string {
    "[" + Join(xs) + "]"
  }

  function Join(xs: seq<TokenString>): string {
    if xs == [] then ""
    else if |xs| == 1 then TokenStringToString(xs[0])
    else TokenStringToString(xs[0]) + ", " + Join(xs[1..])
  }

  /** Set.toArray: the elements of `s`, each once, in the set's iteration order. */
  method ToArray(s: set<TokenString>) returns (a: array<TokenString>)
    ensures fresh(a) && multiset(a[..]) == multiset(s)
  {
    a := new TokenString[|s|](_ => Epsilon);
    var rest := s;
    var i := 0;
    while rest != {}
      invariant rest <= s && i + |rest| == |s| && a.Length == |s|
      invariant multiset(a[..i]) + multiset(rest) == multiset(s)
      decreases |rest|
    {
      var x :| x in rest;
      a[i] := x;
      assert a[..i + 1] == a[..i] + [x];
      assert multiset(rest - {x}) + multiset{x} == multiset(rest);
      rest := rest - {x};
      i := i + 1;
    }
    assert a[..] == a[..i];
  }

  /** The index of a least element of `a[i..]` by compareTo. */
  method MinIndex(a: array<TokenString>, i: nat) returns (m: nat)
    requires i < a.Length && AllIdsInRange(a[..])
    ensures i <= m < a.Length
    ensures forall y :: i <= y < a.Length ==> CompareTo(a[m], a[y]) <= 0
  {
    m := i;
    var j := i + 1;
    CompareAntisymmetric(a[i].tokens, a[i].tokens);
    while j < a.Length
      invariant i <= m < a.Length && i + 1 <= j <= a.Length
      invariant forall y :: i <= y < j ==> CompareTo(a[m], a[y]) <= 0
    {
      if CompareTo(a[j], a[m]) < 0 {
        forall y | i <= y < j ensures CompareTo(a[j], a[y]) <= 0 {
          CompareTransitive(a[j].tokens, a[m].tokens, a[y].tokens);
        }
        CompareAntisymmetric(a[j].tokens, a[j].tokens);
        m := j;
      } else {
        CompareAntisymmetric(a[j].tokens, a[m].tokens);
      }
      j := j + 1;
    }
  }

  /** The first `i` elements are sorted and none exceeds any later element. */
  predicate SortedUpTo(xs: seq<TokenString>, i: nat)
    requires i <= |xs|
  {
    && (forall x, y :: 0 <= x < y < i ==> CompareTo(xs[x], xs[y]) <= 0)
    && (forall x, y :: 0 <= x < i <= y < |xs| ==> CompareTo(xs[x], xs[y]) <= 0)
  }

  predicate AllIdsInRange(xs: seq<TokenString>) {
    forall k :: 0 <= k < |xs| ==> IdsInRange(xs[k].tokens)
  }

  /** Swapping a least element of xs[i..] into place i extends the sorted prefix. */
  lemma SelectionStep(xs: seq<TokenString>, i: nat, m: nat)
    requires i <= m < |xs| && SortedUpTo(xs, i) && AllIdsInRange(xs)
    requires forall y :: i <= y < |xs| ==> CompareTo(xs[m], xs[y]) <= 0
    ensures var ys := xs[i := xs[m]][m := xs[i]];
            SortedUpTo(ys, i + 1) && AllIdsInRange(ys) && multiset(ys) == multiset(xs)
  {
    var ys := xs[i := xs[m]][m := xs[i]];
    forall x, y | 0 <= x < y < i + 1 ensures CompareTo(ys[x], ys[y]) <= 0 {
      assert ys[x] == xs[x];
    }
    forall x, y | 0 <= x < i + 1 <= y < |ys| ensures CompareTo(ys[x], ys[y]) <= 0 {
      if x == i {
        assert ys[y] == (if y == m then xs[i] else xs[y]);
      } else {
        assert ys[x] == xs[x] && ys[y] == (if y == m then xs[i] else xs[y]);
      }
    }
    forall k | 0 <= k < |ys| ensures IdsInRange(ys[k].tokens) {
      assert ys[k] == (if k == m then xs[i] else if k == i then xs[m] else xs[k]);
    }
    SwapPermutes(xs, i, m);
  }

  lemma SwapPermutes(xs: seq<TokenString>, i: nat, m: nat)
    requires i <= m < |xs|
    ensures multiset(xs[i := xs[m]][m := xs[i]]) == multiset(xs)
  {
  }

  /** Arrays.sort on a local copy: a selection sort by compareTo. */
  method SortInPlace(a: array<TokenString>)
    requires AllIdsInRange(a[..])
    modifies a
    ensures Sorted(a[..]) && multiset(a[..]) == multiset(old(a[..]))
  {
    var i := 0;
    while i < a.Length
      invariant 0 <= i <= a.Length
      invariant multiset(a[..]) == multiset(old(a[..]))
      invariant AllIdsInRange(a[..]) && SortedUpTo(a[..], i)
    {
      var m := MinIndex(a, i);
      ghost var before := a[..];
      SelectionStep(before, i, m);
      a[i], a[m] := a[m], a[i];
      assert a[..] == before[i := before[m]][m := before[i]];
      i := i + 1;
    }
  }

  /** One set, as Sets.toString renders it: sorted, then Arrays.toString. */
  method SortedRendering(s: set<TokenString>) returns (text: string, ghost xs: seq<TokenString>)
    requires SetIdsInRange(s)
    ensures SortedListing(xs, s) && text == Render(xs)
  {
    var a := ToArray(s);
    forall k | 0 <= k < a.Length ensures IdsInRange(a[..][k].tokens) {
      assert a[..][k] in multiset(a[..]);
    }
    SortInPlace(a);
    xs := a[..];
    text := Render(a[..]);
  }

  /** Sets.toString: P, L, D and F on separate lines, each sorted by compareTo. The
      sets themselves are values here; sorting works on copies. */
  method SetsToString(sets: Sets)
    returns (r: string, ghost ps: seq<TokenString>, ghost ls: seq<TokenString>,
             ghost ds: seq<TokenString>, ghost fs: seq<TokenString>)
    requires SetIdsInRange(sets.p) && SetIdsInRange(sets.l) && SetIdsInRange(sets.d) && SetIdsInRange(sets.f)
    ensures SortedListing(ps, sets.p) && SortedListing(ls, sets.l)
    ensures SortedListing(ds, sets.d) && SortedListing(fs, sets.f)
    ensures r == "P: " + Render(ps) + "\nL: " + Render(ls) + "\nD: " + Render(ds) + "\nF: " + Render(fs)
  {
    var pText, lText, dText, fText;
    pText, ps := SortedRendering(sets.p);
    lText, ls := SortedRendering(sets.l);
    dText, ds := SortedRendering(sets.d);
    fText, fs := SortedRendering(sets.f);
    r := "P: " + pText + "\nL: " + lText + "\nD: " + dText + "\nF: " + fText;
  }

  /** Dropping the head of a sorted listing of `s` lists `s` without that head. */
  lemma ListingTail(xs: seq<TokenString>, s: set<TokenString>)
    requires SortedListing(xs, s) && |xs| > 0
    ensures SortedListing(xs[1..], s - {xs[0]})
  {
    var x := xs[0];
    assert xs == [x] + xs[1..];
    assert multiset(xs) == multiset{x} + multiset(xs[1..]);
    assert x in s by { assert x in multiset(xs); }
    assert s == (s - {x}) + {x};
    assert multiset(s - {x}) == multiset(s) - multiset{x};
    forall i, i' | 0 <= i < i' < |xs| - 1 ensures CompareTo(xs[1..][i], xs[1..][i']) <= 0 {
      assert xs[1..][i] == xs[i + 1] && xs[1..][i'] == xs[i' + 1];
    }
  }

  /** The head of a sorted listing compares at most 0 with every element of the set. */
  lemma ListingHeadFirst(xs: seq<TokenString>, s: set<TokenString>, y: TokenString)
    requires SortedListing(xs, s) && SetIdsInRange(s) && |xs| > 0 && y in s
    ensures CompareTo(xs[0], y) <= 0
  {
    assert y in multiset(xs) by { assert y in multiset(s); }
    var j :| 0 <= j < |xs| && xs[j] == y;
    if j == 0 {
      assert xs[0] in multiset(s);
      CompareAntisymmetric(y.tokens, y.tokens);
    }
  }

  /** When compareTo tells the elements of a set apart, its sorted listing (and so
      its rendering) is determined by the set alone, whatever the iteration order. */
  lemma {:induction false} SortedListingUnique(xs: seq<TokenString>, ys: seq<TokenString>, s: set<TokenString>)
    requires SortedListing(xs, s) && SortedListing(ys, s) && SetIdsInRange(s)
    requires forall x, y :: x in s && y in s && x != y ==> CompareTo(x, y) != 0
    ensures xs == ys
    decreases |xs|
  {
    assert |xs| == |ys| by {
      assert |multiset(xs)| == |multiset(ys)|;
    }
    if |xs| > 0 {
      var x, y := xs[0], ys[0];
      assert x in s by { assert x in multiset(xs); }
      assert y in s by { assert y in multiset(ys); }
      ListingHeadFirst(xs, s, y);
      ListingHeadFirst(ys, s, x);
      CompareAntisymmetric(x.tokens, y.tokens);
      assert x == y;
      ListingTail(xs, s);
      ListingTail(ys, s);
      SortedListingUnique(xs[1..], ys[1..], s - {x});
      assert xs == [x] + xs[1..] && ys == [y] + ys[1..];
    }
  }
}
