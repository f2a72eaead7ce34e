/** The string handling the import relies on: `'|'`-separated lists
    (`String.Split('|')`, `String.Join("|", …)`), the ordinal case-insensitive
    ordering of `StringComparer.OrdinalIgnoreCase`, and the stable sort of
    LINQ's `OrderBy`. */
module Text {
  import opened Wrappers

  const Separator: char := '|'

  /** `s.Split('|')`: every token between separators, empty tokens included,
      so the result is never empty. */
  function Split(s: string): (r: seq<string>)
    ensures |r| >= 1
  {
    if |s| == 0 then [""]
    else
      var rest := Split(s[1..]);
      if s[0] == Separator then [""] + rest
      else [[s[0]] + rest[0]] + rest[1..]
  }

  /** `string.Join("|", ts)`. */
  function Join(ts: seq<string>): string
  {
    if |ts| == 0 then ""
    else if |ts| == 1 then ts[0]
    else ts[0] + [Separator] + Join(ts[1..])
  }

  /** A token that can be stored in a `'|'` list without being split apart. */
  predicate IsToken(t: string) {
    Separator !in t
  }

  predicate AllTokens(ts: seq<string>) {
    forall i :: 0 <= i < |ts| ==> IsToken(ts[i])
  }

  /** The null-or-join rule the transforms use for every list field:
      `list.Any() ? string.Join("|", list) : null`. */
  function JoinOrNull(ts: seq<string>): (r: Option<string>)
    ensures r.None? <==> ts == []
    ensures r.Some? && AllTokens(ts) ==> Split(r.value) == ts
  {
    if |ts| == 0 then None
    else
      var joined := Join(ts);
      assert AllTokens(ts) ==> Split(joined) == ts by {
        if AllTokens(ts) { SplitJoin(ts); }
      }
      Some(joined)
  }

  lemma {:induction false} SplitToken(t: string)
    requires IsToken(t)
    ensures Split(t) == [t]
  {
    if |t| > 0 {
      SplitToken(t[1..]);
      assert [t[0]] + t[1..] == t;
    }
  }

  lemma {:induction false} SplitCons(t: string, rest: string)
    requires IsToken(t)
    ensures Split(t + [Separator] + rest) == [t] + Split(rest)
  {
    if |t| == 0 {
      assert t + [Separator] + rest == [Separator] + rest;
      assert ([Separator] + rest)[1..] == rest;
    } else {
      var s := t + [Separator] + rest;
      assert s[0] == t[0];
      assert s[1..] == t[1..] + [Separator] + rest;
      SplitCons(t[1..], rest);
      assert [t[0]] + t[1..] == t;
    }
  }

  /** Splitting a joined list of tokens gives the tokens back. */
  lemma {:induction false} SplitJoin(ts: seq<string>)
    requires |ts| >= 1 && AllTokens(ts)
    ensures Split(Join(ts)) == ts
  {
    if |ts| == 1 {
      SplitToken(ts[0]);
    } else {
      SplitJoin(ts[1..]);
      SplitCons(ts[0], Join(ts[1..]));
      assert [ts[0]] + ts[1..] == ts;
    }
  }

  lemma {:induction false} JoinPrefixChar(c: char, ts: seq<string>)
    requires |ts| >= 1
    ensures Join([[c] + ts[0]] + ts[1..]) == [c] + Join(ts)
  {
    var us := [[c] + ts[0]] + ts[1..];
    assert us[1..] == ts[1..];
  }

  /** Joining the tokens of any string gives the string back. */
  lemma {:induction false} JoinSplit(s: string)
    ensures Join(Split(s)) == s
  {
    if |s| > 0 {
      var rest := Split(s[1..]);
      JoinSplit(s[1..]);
      if s[0] == Separator {
        assert ([""] + rest)[1..] == rest;
        assert [s[0]] + s[1..] == s;
      } else {
        JoinPrefixChar(s[0], rest);
        assert [s[0]] + s[1..] == s;
      }
    }
  }

  // ---------------------------------------------------------------------
  // StringComparer.OrdinalIgnoreCase

  /** Upper-cases an ASCII letter; every other character is its own key. */
  function FoldChar(c: char): char {
    if 'a' <= c <= 'z' then (c as int - 32) as char else c
  }

  /** The key `OrdinalIgnoreCase` compares: the string with its letters folded. */
  function Fold(s: string): (r: string)
    ensures |r| == |s|
  {
    if |s| == 0 then "" else [FoldChar(s[0])] + Fold(s[1..])
  }

  /** Strict ordinal (code-unit lexicographic) order. */
  predicate Below(a: string, b: string)
  {
    if |a| == 0 then |b| > 0
    else if |b| == 0 then false
    else if a[0] < b[0] then true
    else a[0] == b[0] && Below(a[1..], b[1..])
  }

  lemma {:induction false} BelowIrreflexive(a: string)
    ensures !Below(a, a)
  {
    if |a| > 0 {
      BelowIrreflexive(a[1..]);
    }
  }

  lemma {:induction false} BelowTransitive(a: string, b: string, c: string)
    requires Below(a, b) && Below(b, c)
    ensures Below(a, c)
  {
    if |a| > 0 && |b| > 0 && |c| > 0 && a[0] == b[0] == c[0] {
      BelowTransitive(a[1..], b[1..], c[1..]);
    }
  }

  lemma {:induction false} BelowTotal(a: string, b: string)
    ensures a == b || Below(a, b) || Below(b, a)
  {
    if |a| > 0 && |b| > 0 && a[0] == b[0] {
      assert a == [a[0]] + a[1..] && b == [b[0]] + b[1..];
      BelowTotal(a[1..], b[1..]);
    }
  }

  // ---------------------------------------------------------------------
  // OrderBy(key, StringComparer.OrdinalIgnoreCase): a stable sort

  /** `a` sorts strictly before `b` under the case-insensitive key. */
  predicate KeyBelow<T>(key: T -> string, a: T, b: T) {
    Below(Fold(key(a)), Fold(key(b)))
  }

  predicate Sorted<T>(s: seq<T>, key: T -> string) {
    forall i, j :: 0 <= i < j < |s| ==> !KeyBelow(key, s[j], s[i])
  }

  /** No two distinct elements share a case-insensitive key, i.e. no two
      elements differ solely by letter case. */
  ghost predicate KeyInjective<T>(s: seq<T>, key: T -> string) {
    forall a, b :: a in s && b in s && Fold(key(a)) == Fold(key(b)) ==> a == b
  }

  /** Inserts `x` after every element whose key is not above its own, which
      is what makes the sort stable. */
  function Insert<T>(x: T, s: seq<T>, key: T -> string): seq<T>
  {
    if |s| == 0 then [x]
    else if KeyBelow(key, x, s[0]) then [x] + s
    else [s[0]] + Insert(x, s[1..], key)
  }

  function SortBy<T>(xs: seq<T>, key: T -> string): seq<T>
  {
    if |xs| == 0 then [] else Insert(xs[|xs| - 1], SortBy(xs[..|xs| - 1], key), key)
  }

  lemma {:induction false} InsertPermutes<T>(x: T, s: seq<T>, key: T -> string)
    ensures multiset(Insert(x, s, key)) == multiset(s) + multiset{x}
  {
    if |s| > 0 && !KeyBelow(key, x, s[0]) {
      InsertPermutes(x, s[1..], key);
      assert s == [s[0]] + s[1..];
    }
  }

  /** The sort is a permutation of its input. */
  lemma {:induction false} SortPermutes<T>(xs: seq<T>, key: T -> string)
    ensures multiset(SortBy(xs, key)) == multiset(xs)
  {
    if |xs| > 0 {
      var init := xs[..|xs| - 1];
      SortPermutes(init, key);
      InsertPermutes(xs[|xs| - 1], SortBy(init, key), key);
      assert xs == init + [xs[|xs| - 1]];
    }
  }

  lemma {:induction false} InsertSorted<T>(x: T, s: seq<T>, key: T -> string)
    requires Sorted(s, key)
    ensures Sorted(Insert(x, s, key), key)
  {
    if |s| == 0 {
    } else if KeyBelow(key, x, s[0]) {
      var r := [x] + s;
      forall i, j | 0 <= i < j < |r|
        ensures !KeyBelow(key, r[j], r[i])
      {
        if i == 0 {
          if KeyBelow(key, r[j], x) {
            if j == 1 {
              BelowTransitive(Fold(key(s[0])), Fold(key(x)), Fold(key(s[0])));
              BelowIrreflexive(Fold(key(s[0])));
            } else {
              BelowTransitive(Fold(key(r[j])), Fold(key(x)), Fold(key(s[0])));
            }
          }
        }
      }
    } else {
      var tail := Insert(x, s[1..], key);
      InsertSorted(x, s[1..], key);
      InsertPermutes(x, s[1..], key);
      var r := [s[0]] + tail;
      forall i, j | 0 <= i < j < |r|
        ensures !KeyBelow(key, r[j], r[i])
      {
        if i == 0 {
          var y := r[j];
          assert y in multiset(tail);
          assert y == x || y in multiset(s[1..]);
          if y != x {
            var k :| 1 <= k < |s| && s[k] == y;
          }
        }
      }
    }
  }

  /** The sort orders its output by the case-insensitive key. */
  lemma {:induction false} SortSorted<T>(xs: seq<T>, key: T -> string)
    ensures Sorted(SortBy(xs, key), key)
  {
    if |xs| > 0 {
      SortSorted(xs[..|xs| - 1], key);
      InsertSorted(xs[|xs| - 1], SortBy(xs[..|xs| - 1], key), key);
    }
  }

  lemma HeadsAgree<T>(a: seq<T>, b: seq<T>, key: T -> string)
    requires |a| > 0 && |b| > 0
    requires Sorted(a, key) && Sorted(b, key)
    requires multiset(a) == multiset(b)
    requires KeyInjective(a, key)
    ensures a[0] == b[0]
  {
    assert a[0] in multiset(b);
    var k :| 0 <= k < |b| && b[k] == a[0];
    assert b[0] in multiset(a);
    var m :| 0 <= m < |a| && a[m] == b[0];
    var ka, kb := Fold(key(a[0])), Fold(key(b[0]));
    BelowIrreflexive(ka);
    assert !Below(ka, kb) by {
      if k > 0 { assert !KeyBelow(key, b[k], b[0]); }
    }
    assert !Below(kb, ka) by {
      if m > 0 { assert !KeyBelow(key, a[m], a[0]); }
    }
    BelowTotal(ka, kb);
    assert b[0] in a;
  }

  lemma SortedTail<T>(a: seq<T>, key: T -> string)
    requires |a| > 0 && Sorted(a, key)
    ensures Sorted(a[1..], key)
  {
    forall i, j | 0 <= i < j < |a| - 1
      ensures !KeyBelow(key, a[1..][j], a[1..][i])
    {
      assert a[1..][j] == a[j + 1] && a[1..][i] == a[i + 1];
    }
  }

  lemma KeyInjectiveTail<T>(a: seq<T>, key: T -> string)
    requires |a| > 0 && KeyInjective(a, key)
    ensures KeyInjective(a[1..], key)
  {
    forall x, y | x in a[1..] && y in a[1..] && Fold(key(x)) == Fold(key(y))
      ensures x == y
    {
      assert x in a && y in a;
    }
  }

  lemma MultisetTail<T>(a: seq<T>, b: seq<T>)
    requires |a| > 0 && |b| > 0 && a[0] == b[0]
    requires multiset(a) == multiset(b)
    ensures multiset(a[1..]) == multiset(b[1..])
  {
    assert a == [a[0]] + a[1..] && b == [b[0]] + b[1..];
    assert multiset(a[1..]) == multiset(a) - multiset{a[0]};
    assert multiset(b[1..]) == multiset(b) - multiset{b[0]};
  }

  /** Two sorted arrangements of one multiset coincide when no two of its
      elements differ solely by case. */
  lemma {:induction false} SortedUnique<T>(a: seq<T>, b: seq<T>, key: T -> string)
    requires Sorted(a, key) && Sorted(b, key)
    requires multiset(a) == multiset(b)
    requires KeyInjective(a, key)
    ensures a == b
  {
    assert |b| == |multiset(b)| == |multiset(a)| == |a|;
    if |a| > 0 {
      HeadsAgree(a, b, key);
      MultisetTail(a, b);
      SortedTail(a, key);
      SortedTail(b, key);
      KeyInjectiveTail(a, key);
      SortedUnique(a[1..], b[1..], key);
      assert a == [a[0]] + a[1..] && b == [b[0]] + b[1..];
    }
  }

  /** Sorting ignores the input order, unless two elements differ solely
      by letter case. */
  lemma SortIgnoresOrder<T>(xs: seq<T>, ys: seq<T>, key: T -> string)
    requires multiset(xs) == multiset(ys)
    requires KeyInjective(xs, key)
    ensures SortBy(xs, key) == SortBy(ys, key)
  {
    SortPermutes(xs, key);
    SortPermutes(ys, key);
    SortSorted(xs, key);
    SortSorted(ys, key);
    var sx := SortBy(xs, key);
    forall a, b | a in sx && b in sx && Fold(key(a)) == Fold(key(b))
      ensures a == b
    {
      assert a in multiset(sx) && b in multiset(sx);
      assert a in multiset(xs) && b in multiset(xs);
    }
    SortedUnique(sx, SortBy(ys, key), key);
  }
}
