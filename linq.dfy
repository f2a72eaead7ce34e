/** The LINQ operators the reconciliation is built from: `Distinct`,
    `SelectMany`, and `Except` with an `IEqualityComparer`, the last one
    modelled down to the hash buckets of the set it builds. */
module Linq {
  import opened Wrappers

  predicate NoDuplicates<T(==)>(xs: seq<T>) {
    forall i, j :: 0 <= i < j < |xs| ==> xs[i] != xs[j]
  }

  /** `x` occurs in `xs` before any occurrence of `y`. */
  predicate OccursBefore<T(==)>(xs: seq<T>, x: T, y: T) {
    exists a :: 0 <= a < |xs| && xs[a] == x && forall b :: 0 <= b <= a ==> xs[b] != y
  }

  /** `Enumerable.Distinct`: the first occurrence of every value, in input order. */
  function Distinct<T(==,!new)>(xs: seq<T>): (r: seq<T>)
    ensures NoDuplicates(r)
    ensures forall x :: x in r <==> x in xs
    ensures forall i, j :: 0 <= i < j < |r| ==> OccursBefore(xs, r[i], r[j])
  {
    if |xs| == 0 then []
    else
      var init, last := xs[..|xs| - 1], xs[|xs| - 1];
      assert xs == init + [last];
      var d := Distinct(init);
      DistinctOrderSnoc(init, last, d);
      if last in d then d else d + [last]
  }

  /** The step of `Distinct`'s order clause: what occurs first in `init`
      occurs first in `init + [last]`, and every earlier value occurs
      before a new `last`. */
  lemma DistinctOrderSnoc<T>(init: seq<T>, last: T, d: seq<T>)
    requires forall x :: x in d <==> x in init
    requires forall i, j :: 0 <= i < j < |d| ==> OccursBefore(init, d[i], d[j])
    ensures forall i, j :: 0 <= i < j < |d| ==> OccursBefore(init + [last], d[i], d[j])
    ensures last !in d ==> forall i :: 0 <= i < |d| ==> OccursBefore(init + [last], d[i], last)
    ensures var r := if last in d then d else d + [last];
      forall i, j :: 0 <= i < j < |r| ==> OccursBefore(init + [last], r[i], r[j])
  {
    var xs := init + [last];
    forall i, j | 0 <= i < j < |d|
      ensures OccursBefore(xs, d[i], d[j])
    {
      assert OccursBefore(init, d[i], d[j]);
      var a :| 0 <= a < |init| && init[a] == d[i] && forall b :: 0 <= b <= a ==> init[b] != d[j];
      assert xs[a] == d[i] && forall b :: 0 <= b <= a ==> xs[b] == init[b];
    }
    if last !in d {
      forall i | 0 <= i < |d|
        ensures OccursBefore(xs, d[i], last)
      {
        assert d[i] in init;
        var a :| 0 <= a < |init| && init[a] == d[i];
        assert xs[a] == d[i] && forall b :: 0 <= b <= a ==> xs[b] == init[b] && init[b] in d;
      }
      var r := d + [last];
      forall i, j | 0 <= i < j < |r|
        ensures OccursBefore(xs, r[i], r[j])
      {
        if j < |d| {
          assert r[i] == d[i] && r[j] == d[j];
        } else {
          assert r[i] == d[i] && r[j] == last;
        }
      }
    }
  }

  // ---------------------------------------------------------------------
  // Enumerable.FirstOrDefault(predicate)

  /** The position of the first element satisfying `p`, or `|xs|` when none does. */
  function FirstIndex<T>(xs: seq<T>, p: T -> bool): (k: nat)
    ensures k <= |xs|
    ensures k < |xs| ==> p(xs[k])
    ensures forall j :: 0 <= j < k ==> !p(xs[j])
  {
    if |xs| == 0 then 0
    else if p(xs[0]) then 0
    else
      var k := FirstIndex(xs[1..], p);
      assert forall j :: 0 < j <= k ==> xs[j] == xs[1..][j - 1];
      k + 1
  }

  /** `FirstOrDefault(p)`: the first element satisfying `p`, or none. */
  function FirstWhere<T>(xs: seq<T>, p: T -> bool): (r: Option<T>)
    ensures r.Some? ==> exists k :: 0 <= k < |xs| && xs[k] == r.value && p(xs[k]) && forall j :: 0 <= j < k ==> !p(xs[j])
    ensures r.None? <==> forall x :: x in xs ==> !p(x)
  {
    var k := FirstIndex(xs, p);
    if k < |xs| then Some(xs[k]) else None
  }

  /** `Enumerable.SelectMany`: the concatenation of `f` over `xs`, in order. */
  function SelectMany<A, B>(xs: seq<A>, f: A -> seq<B>): seq<B>
  {
    if |xs| == 0 then [] else f(xs[0]) + SelectMany(xs[1..], f)
  }

  /** An element is selected exactly when some source element lists it. */
  lemma {:induction false} SelectManyMembers<A, B>(xs: seq<A>, f: A -> seq<B>, b: B)
    ensures b in SelectMany(xs, f) <==> exists i :: 0 <= i < |xs| && b in f(xs[i])
  {
    if |xs| > 0 {
      SelectManyMembers(xs[1..], f, b);
      if b in SelectMany(xs[1..], f) {
        var i :| 0 <= i < |xs| - 1 && b in f(xs[1..][i]);
        assert b in f(xs[i + 1]);
      }
      if exists i :: 0 <= i < |xs| && b in f(xs[i]) {
        var i :| 0 <= i < |xs| && b in f(xs[i]);
        if i > 0 {
          assert b in f(xs[1..][i - 1]);
        }
      }
    }
  }

  lemma {:induction false} SelectManyAppend<A, B>(xs: seq<A>, ys: seq<A>, f: A -> seq<B>)
    ensures SelectMany(xs + ys, f) == SelectMany(xs, f) + SelectMany(ys, f)
  {
    if |xs| > 0 {
      assert (xs + ys)[1..] == xs[1..] + ys;
      SelectManyAppend(xs[1..], ys, f);
    } else {
      assert xs + ys == ys;
    }
  }

  /** `Enumerable.Select`: `f` applied to every element, in order. */
  function Select<A, B>(xs: seq<A>, f: A -> B): (r: seq<B>)
    ensures |r| == |xs|
    ensures forall i :: 0 <= i < |xs| ==> r[i] == f(xs[i])
  {
    seq(|xs|, i requires 0 <= i < |xs| => f(xs[i]))
  }

  lemma SelectSnoc<A, B>(xs: seq<A>, x: A, f: A -> B)
    ensures Select(xs + [x], f) == Select(xs, f) + [f(x)]
  {
    assert forall i :: 0 <= i < |xs| ==> (xs + [x])[i] == xs[i];
  }

  /** `Enumerable.Where`: the elements satisfying `p`, in order. */
  function Where<A>(xs: seq<A>, p: A -> bool): (r: seq<A>)
    ensures |r| <= |xs|
  {
    if |xs| == 0 then []
    else Where(xs[..|xs| - 1], p) + (if p(xs[|xs| - 1]) then [xs[|xs| - 1]] else [])
  }

  lemma {:induction false} WhereMembers<A>(xs: seq<A>, p: A -> bool, x: A)
    ensures x in Where(xs, p) <==> x in xs && p(x)
  {
    if |xs| > 0 {
      var init := xs[..|xs| - 1];
      WhereMembers(init, p, x);
      assert xs == init + [xs[|xs| - 1]];
    }
  }

  /** Nothing is selected when no element satisfies `p`. */
  lemma {:induction false} WhereNone<A>(xs: seq<A>, p: A -> bool)
    requires forall i :: 0 <= i < |xs| ==> !p(xs[i])
    ensures Where(xs, p) == []
  {
    if |xs| > 0 {
      WhereNone(xs[..|xs| - 1], p);
    }
  }

  /** Every element is either selected by `p` or by its negation. */
  lemma {:induction false} WherePartition<A>(xs: seq<A>, p: A -> bool)
    ensures |Where(xs, p)| + |Where(xs, a => !p(a))| == |xs|
  {
    if |xs| > 0 {
      WherePartition(xs[..|xs| - 1], p);
    }
  }

  // ---------------------------------------------------------------------
  // Enumerable.Except(first, second, comparer)

  /** An `IEqualityComparer<T>`: its `Equals` and its `GetHashCode`. */
  datatype Comparer<-T> = Comparer(equals: (T, T) -> bool, hash: T -> int)

  /** The comparer keeps the contract `Equals(a, b) ==> GetHashCode(a) == GetHashCode(b)`. */
  ghost predicate Consistent<T(!new)>(c: Comparer<T>) {
    forall a, b :: c.equals(a, b) ==> c.hash(a) == c.hash(b)
  }

  /** The hash contract, on the elements of `xs` only. */
  ghost predicate ConsistentOn<T>(c: Comparer<T>, xs: seq<T>) {
    forall a, b {:trigger c.equals(a, b)} :: a in xs && b in xs && c.equals(a, b) ==> c.hash(a) == c.hash(b)
  }

  lemma ConsistentOnSub<T>(c: Comparer<T>, xs: seq<T>, ys: seq<T>)
    requires ConsistentOn(c, xs) && forall y :: y in ys ==> y in xs
    ensures ConsistentOn(c, ys)
  {
  }

  ghost predicate Transitive<T(!new)>(c: Comparer<T>) {
    forall a, b, d :: c.equals(a, b) && c.equals(b, d) ==> c.equals(a, d)
  }

  /** The bucket key of the set LINQ builds: `hash & 0x7FFFFFFF`. */
  function Bucket(h: int): int {
    h % 0x8000_0000
  }

  /** A stored slot matches a probe when the bucket keys agree and `Equals(slot, probe)`. */
  predicate Matches<T>(c: Comparer<T>, slot: T, probe: T) {
    Bucket(c.hash(slot)) == Bucket(c.hash(probe)) && c.equals(slot, probe)
  }

  predicate InSet<T>(c: Comparer<T>, slots: seq<T>, x: T) {
    exists i :: 0 <= i < |slots| && Matches(c, slots[i], x)
  }

  /** `Set.Add`: stores `x` unless a matching element is already stored. */
  function Add<T>(c: Comparer<T>, slots: seq<T>, x: T): seq<T> {
    if InSet(c, slots, x) then slots else slots + [x]
  }

  /** The slots of the set built from `second` before `first` is walked. */
  function BuildSet<T>(c: Comparer<T>, xs: seq<T>): seq<T> {
    if |xs| == 0 then [] else Add(c, BuildSet(c, xs[..|xs| - 1]), xs[|xs| - 1])
  }

  /** Walks `first`, yielding every element the slots did not already hold and
      adding it to the slots; the set holds `slots0` plus what was yielded. */
  function Walk<T>(c: Comparer<T>, first: seq<T>, slots0: seq<T>): seq<T> {
    if |first| == 0 then []
    else
      var yielded := Walk(c, first[..|first| - 1], slots0);
      if InSet(c, slots0 + yielded, first[|first| - 1]) then yielded
      else yielded + [first[|first| - 1]]
  }

  /** `first.Except(second, c)` as LINQ computes it. */
  function Except<T>(first: seq<T>, second: seq<T>, c: Comparer<T>): seq<T> {
    Walk(c, first, BuildSet(c, second))
  }

  /** Whether `first[j]` survives: nothing in `second`, and nothing earlier
      in `first`, equals it. */
  predicate Kept<T(==,!new)>(eq: (T, T) -> bool, first: seq<T>, second: seq<T>, j: nat)
    requires j < |first|
  {
    && (forall s :: s in second ==> !eq(s, first[j]))
    && (forall i :: 0 <= i < j ==> !eq(first[i], first[j]))
  }

  /** The set difference `Except` is meant to compute: the elements of
      `first` equal to nothing in `second`, duplicates under `eq` dropped,
      first occurrences kept, order kept. */
  function ExceptSpec<T(==,!new)>(first: seq<T>, second: seq<T>, eq: (T, T) -> bool): (r: seq<T>)
    ensures forall y :: y in r ==> y in first
    ensures |r| <= |first|
  {
    if |first| == 0 then []
    else
      var init := first[..|first| - 1];
      var prev := ExceptSpec(init, second, eq);
      assert forall y :: y in init ==> y in first;
      if Kept(eq, first, second, |first| - 1) then prev + [first[|first| - 1]] else prev
  }

  lemma InSetAppend<T>(c: Comparer<T>, a: seq<T>, b: seq<T>, x: T)
    ensures InSet(c, a + b, x) <==> InSet(c, a, x) || InSet(c, b, x)
  {
    if InSet(c, a + b, x) {
      var i :| 0 <= i < |a + b| && Matches(c, (a + b)[i], x);
      if i >= |a| {
        assert Matches(c, b[i - |a|], x);
      }
    }
    if InSet(c, b, x) {
      var i :| 0 <= i < |b| && Matches(c, b[i], x);
      assert (a + b)[|a| + i] == b[i];
    }
    if InSet(c, a, x) {
      var i :| 0 <= i < |a| && Matches(c, a[i], x);
      assert (a + b)[i] == a[i];
    }
  }

  /** Every element of `xs` is stored in the slots or matched by a stored one,
      and only elements of `xs` are stored. */
  lemma {:induction false} BuildSetCovers<T(!new)>(c: Comparer<T>, xs: seq<T>)
    ensures forall r :: r in BuildSet(c, xs) ==> r in xs
    ensures forall s :: s in xs ==> s in BuildSet(c, xs) || InSet(c, BuildSet(c, xs), s)
  {
    if |xs| > 0 {
      var init, last := xs[..|xs| - 1], xs[|xs| - 1];
      assert xs == init + [last];
      BuildSetCovers(c, init);
      var prev := BuildSet(c, init);
      if !InSet(c, prev, last) {
        forall s | s in init && InSet(c, prev, s)
          ensures InSet(c, prev + [last], s)
        {
          InSetAppend(c, prev, [last], s);
        }
      }
    }
  }

  /** With a transitive comparer that keeps its hash contract on `second`
      and the probe, probing the slots built from `second` asks exactly
      whether some element of `second` equals the probe. */
  lemma BuildSetProbe<T(!new)>(c: Comparer<T>, second: seq<T>, x: T)
    requires ConsistentOn(c, second + [x]) && Transitive(c)
    ensures InSet(c, BuildSet(c, second), x) <==> exists s :: s in second && c.equals(s, x)
  {
    var slots := BuildSet(c, second);
    BuildSetCovers(c, second);
    if InSet(c, slots, x) {
      var i :| 0 <= i < |slots| && Matches(c, slots[i], x);
      assert slots[i] in second;
    }
    if exists s :: s in second && c.equals(s, x) {
      var s :| s in second && c.equals(s, x);
      if s in slots {
        var i :| 0 <= i < |slots| && slots[i] == s;
        assert Matches(c, slots[i], x);
      } else {
        var i :| 0 <= i < |slots| && Matches(c, slots[i], s);
        assert c.equals(slots[i], x);
        assert Matches(c, slots[i], x);
      }
    }
  }

  /** What `first[j]` is covered by once `first` has been walked: it was
      yielded, or something in `second` or something yielded equals it. */
  ghost predicate Covered<T>(eq: (T, T) -> bool, x: T, second: seq<T>, yielded: seq<T>) {
    x in yielded || (exists s :: s in second && eq(s, x)) || (exists y :: y in yielded && eq(y, x))
  }

  lemma {:induction false} WalkIsSpec<T(!new)>(c: Comparer<T>, first: seq<T>, second: seq<T>)
    requires ConsistentOn(c, first + second) && Transitive(c)
    ensures Walk(c, first, BuildSet(c, second)) == ExceptSpec(first, second, c.equals)
    ensures forall i :: 0 <= i < |first| ==>
      Covered(c.equals, first[i], second, ExceptSpec(first, second, c.equals))
  {
    if |first| > 0 {
      var init, last := first[..|first| - 1], first[|first| - 1];
      ConsistentOnSub(c, first + second, init + second);
      WalkIsSpec(c, init, second);
      var prev := ExceptSpec(init, second, c.equals);
      InSetAppend(c, BuildSet(c, second), prev, last);
      WalkProbe(c, first, second, prev);
      CoveredStep(c, first, second, prev);
    }
  }

  /** The probe for the last element of `first` hits exactly when that
      element is not kept: something in `second`, or something earlier in
      `first`, equals it. */
  lemma WalkProbe<T(!new)>(c: Comparer<T>, first: seq<T>, second: seq<T>, prev: seq<T>)
    requires |first| > 0
    requires ConsistentOn(c, first + second) && Transitive(c)
    requires forall y :: y in prev ==> y in first[..|first| - 1]
    requires forall i :: 0 <= i < |first| - 1 ==> Covered(c.equals, first[i], second, prev)
    ensures InSet(c, BuildSet(c, second), first[|first| - 1]) || InSet(c, prev, first[|first| - 1])
            <==> !Kept(c.equals, first, second, |first| - 1)
  {
    var init, last := first[..|first| - 1], first[|first| - 1];
    var eq := c.equals;
    var j := |first| - 1;
    ConsistentOnSub(c, first + second, second + [last]);
    BuildSetProbe(c, second, last);
    if !exists s :: s in second && eq(s, last) {
      if exists i :: 0 <= i < j && eq(first[i], last) {
        var i :| 0 <= i < j && eq(first[i], last);
        assert Covered(eq, first[i], second, prev);
        if first[i] in prev {
          var k :| 0 <= k < |prev| && prev[k] == first[i];
          assert Matches(c, prev[k], last);
        } else {
          var y :| y in prev && eq(y, first[i]);
          var k :| 0 <= k < |prev| && prev[k] == y;
          assert y in init && last in first;
          assert Matches(c, prev[k], last);
        }
      }
      if InSet(c, prev, last) {
        var k :| 0 <= k < |prev| && Matches(c, prev[k], last);
        assert prev[k] in prev;
        var i :| 0 <= i < |init| && init[i] == prev[k];
        assert first[i] == init[i];
      }
    }
  }

  /** Walking one more element keeps every element of `first` covered. */
  lemma CoveredStep<T(!new)>(c: Comparer<T>, first: seq<T>, second: seq<T>, prev: seq<T>)
    requires |first| > 0 && Transitive(c)
    requires forall i :: 0 <= i < |first| - 1 ==> Covered(c.equals, first[i], second, prev)
    ensures var j := |first| - 1;
      var r := if Kept(c.equals, first, second, j) then prev + [first[j]] else prev;
      forall i :: 0 <= i < |first| ==> Covered(c.equals, first[i], second, r)
  {
    var eq := c.equals;
    var j := |first| - 1;
    var last := first[j];
    var r := if Kept(eq, first, second, j) then prev + [last] else prev;
    forall i | 0 <= i < |first|
      ensures Covered(eq, first[i], second, r)
    {
      if i < j {
        assert Covered(eq, first[i], second, prev);
      } else if r == prev {
        if !exists s :: s in second && eq(s, last) {
          var i' :| 0 <= i' < j && eq(first[i'], last);
          assert Covered(eq, first[i'], second, prev);
        }
      }
    }
  }

  /** With a transitive comparer that keeps its hash contract on the
      elements compared, `Except` computes the set difference `ExceptSpec`. */
  lemma ExceptIsSpec<T(!new)>(first: seq<T>, second: seq<T>, c: Comparer<T>)
    requires ConsistentOn(c, first + second) && Transitive(c)
    ensures Except(first, second, c) == ExceptSpec(first, second, c.equals)
  {
    WalkIsSpec(c, first, second);
  }

  /** When no two elements of `first` are equal, `ExceptSpec` keeps exactly
      the elements equal to nothing in `second`. */
  lemma {:induction false} ExceptSpecDistinct<T(!new)>(first: seq<T>, second: seq<T>, eq: (T, T) -> bool, x: T)
    requires forall i, j :: 0 <= i < j < |first| ==> !eq(first[i], first[j])
    ensures x in ExceptSpec(first, second, eq) <==> x in first && forall s :: s in second ==> !eq(s, x)
  {
    if |first| > 0 {
      var init := first[..|first| - 1];
      ExceptSpecDistinct(init, second, eq, x);
      assert first == init + [first[|first| - 1]];
    }
  }

  /** An element of `first` that something in `second` equals is never kept. */
  lemma ExceptSpecDrops<T(!new)>(first: seq<T>, second: seq<T>, eq: (T, T) -> bool, x: T, s: T)
    requires s in second && eq(s, x)
    ensures x !in ExceptSpec(first, second, eq)
  {
    if x in ExceptSpec(first, second, eq) {
      ExceptSpecKeptWitness(first, second, eq, x);
    }
  }

  /** Everything `ExceptSpec` keeps is an element of `first` that passed `Kept`. */
  lemma {:induction false} ExceptSpecKeptWitness<T(!new)>(first: seq<T>, second: seq<T>, eq: (T, T) -> bool, x: T)
    requires x in ExceptSpec(first, second, eq)
    ensures exists j :: 0 <= j < |first| && first[j] == x && Kept(eq, first, second, j)
  {
    var init := first[..|first| - 1];
    var j := |first| - 1;
    if x in ExceptSpec(init, second, eq) {
      ExceptSpecKeptWitness(init, second, eq, x);
      var i :| 0 <= i < |init| && init[i] == x && Kept(eq, init, second, i);
      assert first[i] == init[i];
      assert Kept(eq, first, second, i);
    } else {
      assert first[j] == x && Kept(eq, first, second, j);
    }
  }

  /** Some element of `second` is equal to `x`. */
  ghost predicate Matched<T>(second: seq<T>, eq: (T, T) -> bool, x: T)
  {
    exists s :: s in second && eq(s, x)
  }

  /** When something in `second` equals every element of `first`, nothing is kept. */
  lemma {:induction false} ExceptSpecEmptyWhenCovered<T(!new)>(first: seq<T>, second: seq<T>, eq: (T, T) -> bool)
    requires forall j :: 0 <= j < |first| ==> Matched(second, eq, first[j])
    ensures ExceptSpec(first, second, eq) == []
  {
    if |first| > 0 {
      var init := first[..|first| - 1];
      forall j | 0 <= j < |init|
        ensures Matched(second, eq, init[j])
      {
        assert init[j] == first[j];
      }
      ExceptSpecEmptyWhenCovered(init, second, eq);
      assert Matched(second, eq, first[|first| - 1]);
      var s :| s in second && eq(s, first[|first| - 1]);
      assert !Kept(eq, first, second, |first| - 1);
    }
  }

  /** Walking elements the slots already hold, or match, yields nothing. */
  lemma {:induction false} WalkStoredEmpty<T>(c: Comparer<T>, first: seq<T>, slots0: seq<T>)
    requires forall x :: x in first ==> InSet(c, slots0, x)
    ensures Walk(c, first, slots0) == []
  {
    if |first| > 0 {
      var init := first[..|first| - 1];
      assert forall x :: x in init ==> x in first;
      WalkStoredEmpty(c, init, slots0);
      assert slots0 + [] == slots0;
      assert first[|first| - 1] in first;
    }
  }

  /** A sequence minus itself is empty under any reflexive comparer, whether
      or not its hash keeps the contract: every element is stored, or
      matched by what is stored, before the walk starts. */
  lemma ExceptSelfEmpty<T(!new)>(xs: seq<T>, c: Comparer<T>)
    requires forall x :: c.equals(x, x)
    ensures Except(xs, xs, c) == []
  {
    var slots := BuildSet(c, xs);
    BuildSetCovers(c, xs);
    forall x | x in xs
      ensures InSet(c, slots, x)
    {
      if x in slots {
        var i :| 0 <= i < |slots| && slots[i] == x;
        assert Matches(c, slots[i], x);
      }
    }
    WalkStoredEmpty(c, xs, slots);
  }

  /** One element minus one element: kept unless the stored one matches it. */
  lemma ExceptSingleton<T>(x: T, y: T, c: Comparer<T>)
    ensures Except([x], [y], c) == if Matches(c, y, x) then [] else [x]
  {
    assert BuildSet(c, [y]) == [y] by {
      assert [y][..0] == [];
    }
    assert [x][..0] == [];
    assert Walk(c, [x][..0], [y]) == [];
    assert [y] + [] == [y];
    assert InSet(c, [y], x) <==> Matches(c, y, x) by {
      if InSet(c, [y], x) {
        var i :| 0 <= i < 1 && Matches(c, [y][i], x);
      }
      if Matches(c, y, x) {
        assert Matches(c, [y][0], x);
      }
    }
  }
}
