/** Token strings: the elements of the Glushkov sets. A token string is a sequence
    of position tokens, optionally tagged with the operator token (concatenation,
    star or counter) whose rule produced it. */
module TokenStrings {
  import opened Util
  import opened Tokens

  datatype TokenString = TokenString(tokens: seq<Token>, tag: Option<Token>)

  /** The empty token string (no tokens, no tag). */
  const Epsilon: TokenString := TokenString([], None)

  /** A token string of length one. */
  function Single(t: Token): TokenString {
    TokenString([t], None)
  }

  /** concatenate(suffix): the tokens of this string followed by those of the
      suffix, without a tag. */
  function Concatenate(a: TokenString, b: TokenString): (r: TokenString)
    ensures |r.tokens| == |a.tokens| + |b.tokens|
    ensures r.tokens[..|a.tokens|] == a.tokens && r.tokens[|a.tokens|..] == b.tokens
    ensures r.tag.None?
  {
    TokenString(a.tokens + b.tokens, None)
  }

  /** concatenate(suffix, transitionToken): the same tokens, tagged. */
  function ConcatenateTagged(a: TokenString, b: TokenString, t: Token): (r: TokenString)
    ensures r.tokens == Concatenate(a, b).tokens && r.tag == Some(t)
  {
    TokenString(a.tokens + b.tokens, Some(t))
  }

  /** The empty string is neutral for concatenation (as far as tokens go) and
      concatenation is associative. */
  lemma ConcatenateLaws(a: TokenString, b: TokenString, c: TokenString)
    ensures Concatenate(Epsilon, a).tokens == a.tokens == Concatenate(a, Epsilon).tokens
    ensures Concatenate(Concatenate(a, b), c) == Concatenate(a, Concatenate(b, c))
  {
    assert a.tokens + [] == a.tokens;
    assert a.tokens + b.tokens + c.tokens == a.tokens + (b.tokens + c.tokens);
  }

  // ---------------------------------------------------------------------------
  // compareTo

  /** String.compareTo: the difference of the first differing characters, or of
      the lengths when one string is a prefix of the other. */
  function StringCompare(a: string, b: string): int
    decreases |a|
  {
    if |a| == 0 || |b| == 0 then |a| - |b|
    else if a[0] != b[0] then a[0] as int - b[0] as int
    else StringCompare(a[1..], b[1..])
  }

  /** The per-token step of compareTo: symbols first, then the id difference. */
  function TokenCompare(x: Token, y: Token): int {
    var c := StringCompare(x.symbol, y.symbol);
    if c == 0 then Wrap32(x.id - y.id) else c
  }

  /** compareTo: lexicographic over the tokens, a proper prefix first; the tags
      play no part. */
  function Compare(a: seq<Token>, b: seq<Token>): int
    decreases |a|
  {
    if |a| == 0 then (if |b| > 0 then -1 else 0)
    else if |b| == 0 then 1
    else
      var c := TokenCompare(a[0], b[0]);
      if c != 0 then c else Compare(a[1..], b[1..])
  }

  function CompareTo(a: TokenString, b: TokenString): int {
    Compare(a.tokens, b.tokens)
  }

  /** compareTo's loop: the first position whose symbols or ids differ
      decides; a string that runs out first sorts first. */
  method CompareTokenStrings(a: TokenString, b: TokenString) returns (cmp: int)
    ensures cmp == CompareTo(a, b)
  {
    var i := 0;
    while i < |a.tokens|
      invariant 0 <= i <= |a.tokens| && i <= |b.tokens|
      invariant Compare(a.tokens[i..], b.tokens[i..]) == CompareTo(a, b)
    {
      if |b.tokens| <= i {
        return 1;
      }
      assert a.tokens[i..][1..] == a.tokens[i + 1..] && b.tokens[i..][1..] == b.tokens[i + 1..];
      cmp := StringCompare(a.tokens[i].symbol, b.tokens[i].symbol);
      if cmp == 0 {
        cmp := Wrap32(a.tokens[i].id - b.tokens[i].id);
      }
      if cmp != 0 {
        return cmp;
      }
      i := i + 1;
    }
    if |b.tokens| > |a.tokens| {
      return -1;
    }
    return 0;
  }

  /** Ids for which the id subtraction of compareTo cannot overflow. */
  predicate IdsInRange(ts: seq<Token>) {
    forall k :: 0 <= k < |ts| ==> 0 <= ts[k].id <= Int32Max
  }

  lemma {:induction false} StringCompareLaws(a: string, b: string)
    ensures StringCompare(a, b) == -StringCompare(b, a)
    ensures StringCompare(a, b) == 0 <==> a == b
    decreases |a|
  {
    if |a| > 0 && |b| > 0 && a[0] == b[0] {
      StringCompareLaws(a[1..], b[1..]);
      if a[1..] == b[1..] {
        assert a == [a[0]] + a[1..] && b == [b[0]] + b[1..];
      }
    }
  }

  lemma {:induction false} StringCompareTransitive(a: string, b: string, c: string)
    requires StringCompare(a, b) <= 0 && StringCompare(b, c) <= 0
    ensures StringCompare(a, c) <= 0
    ensures StringCompare(a, b) < 0 || StringCompare(b, c) < 0 ==> StringCompare(a, c) < 0
    decreases |a|
  {
    if |a| > 0 && |b| > 0 && |c| > 0 && a[0] == b[0] && b[0] == c[0] {
      StringCompareTransitive(a[1..], b[1..], c[1..]);
    }
  }

  lemma TokenCompareLaws(x: Token, y: Token)
    requires 0 <= x.id <= Int32Max && 0 <= y.id <= Int32Max
    ensures TokenCompare(x, y) == -TokenCompare(y, x)
    ensures TokenCompare(x, y) == 0 <==> x.symbol == y.symbol && x.id == y.id
  {
    StringCompareLaws(x.symbol, y.symbol);
  }

  lemma TokenCompareTransitive(x: Token, y: Token, z: Token)
    requires 0 <= x.id <= Int32Max && 0 <= y.id <= Int32Max && 0 <= z.id <= Int32Max
    requires TokenCompare(x, y) <= 0 && TokenCompare(y, z) <= 0
    ensures TokenCompare(x, z) <= 0
    ensures TokenCompare(x, y) < 0 || TokenCompare(y, z) < 0 ==> TokenCompare(x, z) < 0
  {
    StringCompareLaws(x.symbol, y.symbol);
    StringCompareLaws(y.symbol, z.symbol);
    StringCompareLaws(x.symbol, z.symbol);
    var sxy, syz := StringCompare(x.symbol, y.symbol), StringCompare(y.symbol, z.symbol);
    if sxy <= 0 && syz <= 0 {
      StringCompareTransitive(x.symbol, y.symbol, z.symbol);
    }
  }

  /** compareTo reverses sign when its arguments are swapped, and is zero exactly
      when both strings have the same (symbol, id) pairs. */
  lemma {:induction false} CompareAntisymmetric(a: seq<Token>, b: seq<Token>)
    requires IdsInRange(a) && IdsInRange(b)
    ensures Compare(a, b) == -Compare(b, a)
    ensures Compare(a, b) == 0 <==>
            |a| == |b| && forall k :: 0 <= k < |a| ==> a[k].symbol == b[k].symbol && a[k].id == b[k].id
    decreases |a|
  {
    if |a| > 0 && |b| > 0 {
      TokenCompareLaws(a[0], b[0]);
      CompareAntisymmetric(a[1..], b[1..]);
      if TokenCompare(a[0], b[0]) == 0 && Compare(a[1..], b[1..]) == 0 {
        forall k | 0 <= k < |a| ensures a[k].symbol == b[k].symbol && a[k].id == b[k].id {
          if k > 0 { assert a[k] == a[1..][k - 1] && b[k] == b[1..][k - 1]; }
        }
      }
      if |a| == |b| && forall k :: 0 <= k < |a| ==> a[k].symbol == b[k].symbol && a[k].id == b[k].id {
        assert forall k :: 0 <= k < |a| - 1 ==> a[1..][k] == a[k + 1] && b[1..][k] == b[k + 1];
      }
    }
  }

  /** compareTo is transitive, so it is a total preorder on token strings. */
  lemma {:induction false} CompareTransitive(a: seq<Token>, b: seq<Token>, c: seq<Token>)
    requires IdsInRange(a) && IdsInRange(b) && IdsInRange(c)
    requires Compare(a, b) <= 0 && Compare(b, c) <= 0
    ensures Compare(a, c) <= 0
    decreases |a|
  {
    if |a| > 0 && |b| > 0 && |c| > 0 {
      var xy, yz := TokenCompare(a[0], b[0]), TokenCompare(b[0], c[0]);
      TokenCompareTransitive(a[0], b[0], c[0]);
      if xy == 0 && yz == 0 {
        CompareTransitive(a[1..], b[1..], c[1..]);
      }
    }
  }

  /** A proper prefix sorts before the longer string; a string compares 0 with itself. */
  lemma {:induction false} ComparePrefix(a: seq<Token>, b: seq<Token>)
    requires IdsInRange(a) && IdsInRange(b)
    requires |a| < |b| && a == b[..|a|]
    ensures Compare(a, b) < 0 && Compare(b, b) == 0
    decreases |a|
  {
    CompareAntisymmetric(b, b);
    if |a| > 0 {
      TokenCompareLaws(a[0], b[0]);
      assert a[1..] == b[1..][..|a| - 1];
      ComparePrefix(a[1..], b[1..]);
    }
  }

  // ---------------------------------------------------------------------------
  // toString

  /** Arrays.toString of the tokens, a space, and the tag (`null` when absent). */
  function TokenStringToString(ts: TokenString): string {
    "[" + JoinTokens(ts.tokens) + "] " + (if ts.tag.Some? then TokenToString(ts.tag.value) else "null")
  }

  function JoinTokens(ts: seq<Token>): string {
    if ts == [] then ""
    else if |ts| == 1 then TokenToString(ts[0])
    else TokenToString(ts[0]) + ", " + JoinTokens(ts[1..])
  }
}
