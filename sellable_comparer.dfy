/** `ImportSellableItemComparer`: the two equalities the reconciliation sorts
    sellable items by. `ByProductId` is identity: the same product.
    `ByImportData` is content: the same product data, where the `'|'` lists,
    the prices and the images are compared after a case-insensitive sort,
    so that their order does not count. */
module SellableComparer {
  import opened Wrappers
  import opened Host
  import opened Entities
  import opened Text
  import Linq

  /** `SellableItemComparerConfiguration`. A C# enum variable can hold any
      integer, not only the two named members. */
  datatype Configuration = ByProductId | ByImportData | Undefined(value: int)

  /** What the comparer takes from the framework: `string.GetHashCode`,
      the `MoneyComparer` it holds, and the hash `base.GetHashCode()`
      returns for the comparer object itself. */
  datatype Primitives = Primitives(
    stringHash: string -> int,
    moneyEquals: (Money, Money) -> bool,
    moneyHash: Money -> int,
    comparerHash: int)

  /** `MoneyComparer` is an equivalence whose hash agrees with it. */
  ghost predicate MoneyLaws(p: Primitives) {
    && (forall m :: p.moneyEquals(m, m))
    && (forall a, b :: p.moneyEquals(a, b) ==> p.moneyEquals(b, a))
    && (forall a, b, c :: p.moneyEquals(a, b) && p.moneyEquals(b, c) ==> p.moneyEquals(a, c))
    && (forall a, b :: p.moneyEquals(a, b) ==> p.moneyHash(a) == p.moneyHash(b))
  }

  /** The sort key of a token or an image: the string itself. */
  function Self(): string -> string {
    (s: string) => s
  }

  /** The sort key of a price: its currency code. */
  function CurrencyKey(): Money -> string {
    (m: Money) => m.currencyCode
  }

  // ---------------------------------------------------------------------
  // Equals

  /** `StringListEquality`: both null, or the same tokens once sorted. */
  function StringListEquality(x: Option<string>, y: Option<string>): bool {
    match (x, y)
    case (None, None) => true
    case (Some(a), Some(b)) => SortBy(Split(a), Self()) == SortBy(Split(b), Self())
    case _ => false
  }

  /** `SequenceEqual` with a comparer: the same length and equal element by element. */
  predicate SequenceEqualBy<T>(xs: seq<T>, ys: seq<T>, eq: (T, T) -> bool) {
    |xs| == |ys| && forall i :: 0 <= i < |xs| ==> eq(xs[i], ys[i])
  }

  /** `ListPriceEquality`: the pricing policy always exists (it is fetched
      with get-or-create), so the null ladder starts at its price list. */
  function ListPriceEquality(p: Primitives, x: Option<seq<Money>>, y: Option<seq<Money>>): bool {
    match (x, y)
    case (None, None) => true
    case (Some(a), Some(b)) => SequenceEqualBy(SortBy(a, CurrencyKey()), SortBy(b, CurrencyKey()), p.moneyEquals)
    case _ => false
  }

  /** `ImagesEquality`: likewise, from the image list of the images component. */
  function ImagesEquality(x: Option<seq<string>>, y: Option<seq<string>>): bool {
    match (x, y)
    case (None, None) => true
    case (Some(a), Some(b)) => SortBy(a, Self()) == SortBy(b, Self())
    case _ => false
  }

  function SellableItemCoreMemberEquality(x: SellableItem, y: SellableItem): bool {
    && x.productId == y.productId
    && x.name == y.name
    && x.displayName == y.displayName
    && x.description == y.description
    && x.brand == y.brand
    && x.manufacturer == y.manufacturer
    && x.typeOfGood == y.typeOfGood
    && StringListEquality(x.parentCatalogList, y.parentCatalogList)
    && StringListEquality(x.parentCategoryList, y.parentCategoryList)
  }

  /** Content equality of two items. */
  function ImportDataEqual(p: Primitives, x: SellableItem, y: SellableItem): bool {
    && SellableItemCoreMemberEquality(x, y)
    && ListPriceEquality(p, x.prices, y.prices)
    && ImagesEquality(x.images, y.images)
  }

  /** `Equals`: a null argument is never equal to anything, not even to
      another null; a configuration outside the enum throws. */
  function Equals(p: Primitives, config: Configuration, x: Option<SellableItem>, y: Option<SellableItem>)
    : (r: Result<bool, ImportError>)
    ensures x.None? || y.None? ==> r == Success(false)
    ensures r.Failure? <==> x.Some? && y.Some? && config.Undefined?
    ensures r.Failure? ==> r.error == BadConfiguration
    ensures x.Some? && y.Some? && config.ByProductId? ==>
              (r == Success(true) <==> x.value.productId == y.value.productId)
    ensures x.Some? && y.Some? && config.ByImportData? ==>
              (r == Success(true) <==> ImportDataEqual(p, x.value, y.value))
  {
    if x.None? || y.None? then Success(false)
    else
      match config
      case ByProductId => Success(x.value.productId == y.value.productId)
      case ByImportData => Success(ImportDataEqual(p, x.value, y.value))
      case Undefined(_) => Failure(BadConfiguration)
  }

  // ---------------------------------------------------------------------
  // GetHashCode, in 32-bit arithmetic

  /** An `unchecked` 32-bit result: `x` wrapped into [-2^31, 2^31). */
  function Wrap32(x: int): (r: int)
    ensures -0x8000_0000 <= r < 0x8000_0000
    ensures -0x8000_0000 <= x < 0x8000_0000 ==> r == x
  {
    (x + 0x8000_0000) % 0x1_0000_0000 - 0x8000_0000
  }

  /** `hash = hash * 23 + v`, unchecked. */
  function Mix(hash: int, v: int): int {
    Wrap32(hash * 23 + v)
  }

  /** `hash` mixed with every value, in order. */
  function FoldHash(hash: int, vs: seq<int>): int {
    if |vs| == 0 then hash else Mix(FoldHash(hash, vs[..|vs| - 1]), vs[|vs| - 1])
  }

  /** `if (s != null) hash = hash * 23 + s.GetHashCode()`. */
  function MixField(p: Primitives, hash: int, s: Option<string>): int {
    if s.Some? then Mix(hash, p.stringHash(s.value)) else hash
  }

  function FieldsHash(p: Primitives, item: SellableItem): int {
    var h := MixField(p, 17, item.productId);
    var h := MixField(p, h, item.name);
    var h := MixField(p, h, item.displayName);
    var h := MixField(p, h, item.description);
    var h := MixField(p, h, item.brand);
    var h := MixField(p, h, item.manufacturer);
    MixField(p, h, item.typeOfGood)
  }

  /** The sorted tokens of a `'|'` list; none for a null list. */
  function SortedTokens(s: Option<string>): seq<string> {
    if s.Some? then SortBy(Split(s.value), Self()) else []
  }

  /** The content hash over the given price list and image list, in the
      order given. */
  function ContentHashOver(p: Primitives, item: SellableItem, prices: seq<Money>, images: seq<string>): int {
    var h := FieldsHash(p, item);
    var h := FoldHash(h, Linq.Select(SortedTokens(item.parentCatalogList), p.stringHash));
    var h := FoldHash(h, Linq.Select(SortedTokens(item.parentCategoryList), p.stringHash));
    var h := FoldHash(h, Linq.Select(prices, p.moneyHash));
    FoldHash(h, Linq.Select(images, p.stringHash))
  }

  /** The hash as the code computes it: the `'|'` lists sorted, but the
      prices and the images in their stored order. A null price list
      throws; a null image list is skipped. */
  function AsWrittenHash(p: Primitives, config: Configuration, obj: Option<SellableItem>): Result<int, ImportError> {
    if obj.None? then Success(p.comparerHash)
    else
      var item := obj.value;
      match config
      case ByProductId => Success(MixField(p, 17, item.productId))
      case ByImportData =>
        if item.prices.None? then Failure(NullPrices)
        else Success(ContentHashOver(p, item, item.prices.value, item.images.GetOr([])))
      case Undefined(_) => Failure(BadConfiguration)
  }

  /** `hash` mixed with `f` of every element of `xs`: one `ForEach`. */
  method MixEach<T>(hash: int, xs: seq<T>, f: T -> int) returns (r: int)
    ensures r == FoldHash(hash, Linq.Select(xs, f))
  {
    r := hash;
    var i := 0;
    while i < |xs|
      invariant 0 <= i <= |xs|
      invariant r == FoldHash(hash, Linq.Select(xs[..i], f))
    {
      Linq.SelectSnoc(xs[..i], xs[i], f);
      assert xs[..i + 1] == xs[..i] + [xs[i]];
      r := Mix(r, f(xs[i]));
      i := i + 1;
    }
    assert xs[..i] == xs;
  }

  /** The seven nullable fields, in the order the code mixes them. */
  method MixFields(p: Primitives, item: SellableItem) returns (hash: int)
    ensures hash == FieldsHash(p, item)
  {
    hash := 17;
    if item.productId.Some? { hash := Mix(hash, p.stringHash(item.productId.value)); }
    assert hash == MixField(p, 17, item.productId);
    var h := hash;
    if item.name.Some? { hash := Mix(hash, p.stringHash(item.name.value)); }
    assert hash == MixField(p, h, item.name);
    h := hash;
    if item.displayName.Some? { hash := Mix(hash, p.stringHash(item.displayName.value)); }
    assert hash == MixField(p, h, item.displayName);
    h := hash;
    if item.description.Some? { hash := Mix(hash, p.stringHash(item.description.value)); }
    assert hash == MixField(p, h, item.description);
    h := hash;
    if item.brand.Some? { hash := Mix(hash, p.stringHash(item.brand.value)); }
    assert hash == MixField(p, h, item.brand);
    h := hash;
    if item.manufacturer.Some? { hash := Mix(hash, p.stringHash(item.manufacturer.value)); }
    assert hash == MixField(p, h, item.manufacturer);
    h := hash;
    if item.typeOfGood.Some? { hash := Mix(hash, p.stringHash(item.typeOfGood.value)); }
    assert hash == MixField(p, h, item.typeOfGood);
  }

  method GetHashCode(p: Primitives, config: Configuration, obj: Option<SellableItem>) returns (r: Result<int, ImportError>)
    ensures r == AsWrittenHash(p, config, obj)
  {
    if obj.None? {
      return Success(p.comparerHash);
    }
    var item := obj.value;
    var hash := 17;
    match config {
      case ByProductId =>
        if item.productId.Some? { hash := Mix(hash, p.stringHash(item.productId.value)); }
      case ByImportData =>
        hash := MixFields(p, item);
        hash := MixEach(hash, SortedTokens(item.parentCatalogList), p.stringHash);
        hash := MixEach(hash, SortedTokens(item.parentCategoryList), p.stringHash);
        if item.prices.None? {
          return Failure(NullPrices);
        }
        hash := MixEach(hash, item.prices.value, p.moneyHash);
        if item.images.Some? {
          hash := MixEach(hash, item.images.value, p.stringHash);
        }
      case Undefined(_) =>
        return Failure(BadConfiguration);
    }
    return Success(hash);
  }

  // ---------------------------------------------------------------------
  // The hash the equality calls for

  /** The content hash with the prices and the images sorted as `Equals`
      sorts them before comparing. */
  function ContentHash(p: Primitives, item: SellableItem): int {
    ContentHashOver(p, item, SortBy(item.prices.GetOr([]), CurrencyKey()), SortBy(item.images.GetOr([]), Self()))
  }

  /** `GetHashCode` with that correction; everything else as written. */
  function CorrectedHash(p: Primitives, config: Configuration, obj: Option<SellableItem>): Result<int, ImportError> {
    if obj.None? then Success(p.comparerHash)
    else
      match config
      case ByProductId => Success(MixField(p, 17, obj.value.productId))
      case ByImportData =>
        if obj.value.prices.None? then Failure(NullPrices) else Success(ContentHash(p, obj.value))
      case Undefined(_) => Failure(BadConfiguration)
  }

  lemma SelectPointwise<A>(xs: seq<A>, ys: seq<A>, eq: (A, A) -> bool, f: A -> int)
    requires SequenceEqualBy(xs, ys, eq)
    requires forall a, b :: eq(a, b) ==> f(a) == f(b)
    ensures Linq.Select(xs, f) == Linq.Select(ys, f)
  {
    assert forall i :: 0 <= i < |xs| ==> f(xs[i]) == f(ys[i]);
  }

  /** The corrected hash keeps the contract of `IEqualityComparer`: items
      `Equals` calls equal have equal hashes, under either configuration. */
  lemma EqualItemsHashAlike(p: Primitives, config: Configuration, x: SellableItem, y: SellableItem)
    requires MoneyLaws(p)
    requires Equals(p, config, Some(x), Some(y)) == Success(true)
    ensures CorrectedHash(p, config, Some(x)) == CorrectedHash(p, config, Some(y))
  {
    if config.ByImportData? && x.prices.Some? {
      SelectPointwise(SortBy(x.prices.value, CurrencyKey()), SortBy(y.prices.value, CurrencyKey()), p.moneyEquals, p.moneyHash);
    }
  }

  lemma OneLetterSplit(c: char)
    requires c != Separator
    ensures Split([c]) == [[c]]
  {
    assert [c][1..] == "";
    assert Split("") == [""];
    assert [c] + "" == [c];
  }

  lemma TwoImagesSorted()
    ensures SortBy(["a", "bb"], Self()) == ["a", "bb"]
    ensures SortBy(["bb", "a"], Self()) == ["a", "bb"]
  {
    assert "a"[1..] == "" && "bb"[1..] == "b" && "b"[1..] == "";
    assert Fold("a") == "A" && Fold("bb") == "BB";
    assert Below("A", "BB");
    assert !Below("BB", "A");
    assert KeyBelow(Self(), "a", "bb") && !KeyBelow(Self(), "bb", "a");
    assert ["a", "bb"][..1] == ["a"] && ["bb", "a"][..1] == ["bb"];
    assert SortBy(["a"], Self()) == ["a"] by {
      assert ["a"][..0] == [];
    }
    assert SortBy(["bb"], Self()) == ["bb"] by {
      assert ["bb"][..0] == [];
    }
    assert Insert("bb", ["a"], Self()) == ["a", "bb"] by {
      assert ["a"][1..] == [];
    }
    assert Insert("a", ["bb"], Self()) == ["a", "bb"];
  }

  lemma SmallFolds()
    ensures FoldHash(17, [1, 2]) == 9018
    ensures FoldHash(17, [2, 1]) == 9040
  {
    assert Mix(17, 1) == Wrap32(392) == 392;
    assert Mix(392, 2) == Wrap32(9018) == 9018;
    assert Mix(17, 2) == Wrap32(393) == 393;
    assert Mix(393, 1) == Wrap32(9040) == 9040;
    assert [1, 2][..1] == [1] && [2, 1][..1] == [2];
    assert [1][..0] == [] && [2][..0] == [];
  }

  /** The hash as written breaks that contract: two items holding the same
      two images in the opposite order are equal by content, yet hash apart. */
  lemma AsWrittenHashSeesImageOrder() returns (p: Primitives, x: SellableItem, y: SellableItem)
    ensures MoneyLaws(p)
    ensures Equals(p, ByImportData, Some(x), Some(y)) == Success(true)
    ensures AsWrittenHash(p, ByImportData, Some(x)) != AsWrittenHash(p, ByImportData, Some(y))
    ensures AsWrittenHash(p, ByImportData, Some(x)) == Success(9018)
    ensures AsWrittenHash(p, ByImportData, Some(y)) == Success(9040)
    ensures x.productId == y.productId && x.prices.Some? && y.prices.Some?
  {
    p := Primitives((s: string) => |s|, (a: Money, b: Money) => a == b, (m: Money) => 0, 0);
    x := SellableItem("", "", "", None, None, None, None, None, None, None, None, None, None,
                      Some([]), Some(["a", "bb"]), [], [], None);
    y := x.(images := Some(["bb", "a"]));
    TwoImagesSorted();
    SmallFolds();
    assert p.stringHash("a") == 1 && p.stringHash("bb") == 2;
    TwoImagesHash(p, x, "a", "bb");
    TwoImagesHash(p, y, "bb", "a");
    SameImagesEqual(p, x, y);
  }

  /** Two items that differ at most in the order of their images are equal
      by content. */
  lemma SameImagesEqual(p: Primitives, x: SellableItem, y: SellableItem)
    requires x.(images := y.images) == y
    requires x.parentCatalogList.None? && x.parentCategoryList.None? && x.prices == Some([])
    requires x.images.Some? && y.images.Some? && SortBy(x.images.value, Self()) == SortBy(y.images.value, Self())
    ensures ImportDataEqual(p, x, y)
  {
    assert SellableItemCoreMemberEquality(x, y);
  }

  /** The content hash of an item holding nothing but an empty price list
      and two images: the seed mixed with the two image hashes, in order. */
  lemma TwoImagesHash(p: Primitives, item: SellableItem, first: string, second: string)
    requires item.productId.None? && item.name.None? && item.displayName.None?
    requires item.description.None? && item.brand.None? && item.manufacturer.None?
    requires item.typeOfGood.None? && item.parentCatalogList.None? && item.parentCategoryList.None?
    requires item.prices == Some([]) && item.images == Some([first, second])
    ensures AsWrittenHash(p, ByImportData, Some(item))
            == Success(FoldHash(17, [p.stringHash(first), p.stringHash(second)]))
  {
    assert FieldsHash(p, item) == 17;
    assert Linq.Select(SortedTokens(None), p.stringHash) == [];
    assert Linq.Select(item.prices.value, p.moneyHash) == [];
    assert Linq.Select([first, second], p.stringHash) == [p.stringHash(first), p.stringHash(second)];
  }

  // ---------------------------------------------------------------------
  // What content equality ignores

  /** Equality laws of content equality, given those of `MoneyComparer`. */
  lemma ImportDataEquivalence(p: Primitives)
    requires MoneyLaws(p)
    ensures forall x :: ImportDataEqual(p, x, x)
    ensures forall x, y :: ImportDataEqual(p, x, y) ==> ImportDataEqual(p, y, x)
    ensures forall x, y, z :: ImportDataEqual(p, x, y) && ImportDataEqual(p, y, z) ==> ImportDataEqual(p, x, z)
  {
  }

  /** With no two tokens differing solely by case, two `'|'` lists are
      equal exactly when they hold the same tokens, in any order. */
  lemma StringListEqualityIsSameTokens(a: string, b: string)
    requires KeyInjective(Split(a), Self())
    ensures StringListEquality(Some(a), Some(b)) <==> multiset(Split(a)) == multiset(Split(b))
  {
    SortPermutes(Split(a), Self());
    SortPermutes(Split(b), Self());
    if multiset(Split(a)) == multiset(Split(b)) {
      SortIgnoresOrder(Split(a), Split(b), Self());
    }
  }

  /** Likewise for two image lists. */
  lemma ImagesEqualityIsSameImages(a: seq<string>, b: seq<string>)
    requires KeyInjective(a, Self())
    ensures ImagesEquality(Some(a), Some(b)) <==> multiset(a) == multiset(b)
  {
    SortPermutes(a, Self());
    SortPermutes(b, Self());
    if multiset(a) == multiset(b) {
      SortIgnoresOrder(a, b, Self());
    }
  }

  /** Reordering an item's parent catalog tokens changes neither what it
      equals nor its hash, as written or corrected, provided no two tokens
      differ solely by case. */
  lemma CatalogTokenOrderIgnored(p: Primitives, x: SellableItem, ts: seq<string>, us: seq<string>, z: SellableItem)
    requires |ts| >= 1 && AllTokens(ts) && AllTokens(us)
    requires multiset(ts) == multiset(us) && KeyInjective(ts, Self())
    requires x.parentCatalogList == Some(Join(ts))
    ensures var y := x.(parentCatalogList := Some(Join(us)));
      && ImportDataEqual(p, x, z) == ImportDataEqual(p, y, z)
      && AsWrittenHash(p, ByImportData, Some(x)) == AsWrittenHash(p, ByImportData, Some(y))
      && ContentHash(p, x) == ContentHash(p, y)
  {
    assert |us| == |multiset(us)| == |multiset(ts)| == |ts|;
    SplitJoin(ts);
    SplitJoin(us);
    SortIgnoresOrder(ts, us, Self());
    SameCatalogTokens(p, x, x.(parentCatalogList := Some(Join(us))), z);
  }

  /** Two items that differ only in their parent catalog list, and whose
      lists sort to the same tokens, are alike to equality and to both hashes. */
  lemma SameCatalogTokens(p: Primitives, x: SellableItem, y: SellableItem, z: SellableItem)
    requires x.(parentCatalogList := y.parentCatalogList) == y
    requires x.parentCatalogList.Some? && y.parentCatalogList.Some?
    requires SortedTokens(x.parentCatalogList) == SortedTokens(y.parentCatalogList)
    ensures ImportDataEqual(p, x, z) == ImportDataEqual(p, y, z)
    ensures AsWrittenHash(p, ByImportData, Some(x)) == AsWrittenHash(p, ByImportData, Some(y))
    ensures ContentHash(p, x) == ContentHash(p, y)
  {
    assert FieldsHash(p, x) == FieldsHash(p, y);
  }

  /** Reordering an item's images changes what it equals only where two
      images differ solely by case; the corrected hash ignores the order too. */
  lemma ImageOrderIgnored(p: Primitives, x: SellableItem, us: seq<string>, z: SellableItem)
    requires x.images.Some? && multiset(x.images.value) == multiset(us) && KeyInjective(x.images.value, Self())
    ensures var y := x.(images := Some(us));
      ImportDataEqual(p, x, z) == ImportDataEqual(p, y, z) && ContentHash(p, x) == ContentHash(p, y)
  {
    SortIgnoresOrder(x.images.value, us, Self());
  }

  /** Reordering an item's prices changes neither what it equals nor its
      corrected hash, provided no two currency codes differ solely by case. */
  lemma PriceOrderIgnored(p: Primitives, x: SellableItem, us: seq<Money>, z: SellableItem)
    requires x.prices.Some? && multiset(x.prices.value) == multiset(us) && KeyInjective(x.prices.value, CurrencyKey())
    ensures var y := x.(prices := Some(us));
      ImportDataEqual(p, x, z) == ImportDataEqual(p, y, z) && ContentHash(p, x) == ContentHash(p, y)
  {
    SortIgnoresOrder(x.prices.value, us, CurrencyKey());
  }

  /** Without that proviso order does count: "a|A" and "A|a" hold the same
      tokens, but the stable sort keeps each in its own order and the final
      comparison is case-sensitive. */
  lemma CaseVariantTokensDiffer()
    ensures multiset(Split("a|A")) == multiset(Split("A|a"))
    ensures !StringListEquality(Some("a|A"), Some("A|a"))
  {
    CaseVariantSplits();
    CaseVariantSorts();
    assert ["a", "A"][0] != ["A", "a"][0];
  }

  lemma CaseVariantSplits()
    ensures Split("a|A") == ["a", "A"] && Split("A|a") == ["A", "a"]
  {
    OneLetterSplit('A');
    OneLetterSplit('a');
    assert "a|A"[1..] == "|A" && "|A"[1..] == "A";
    assert "A|a"[1..] == "|a" && "|a"[1..] == "a";
    assert Split("|A") == ["", "A"] && Split("|a") == ["", "a"];
  }

  /** The stable sort keeps two tokens that differ only by case in their order. */
  lemma CaseVariantSorts()
    ensures SortBy(["a", "A"], Self()) == ["a", "A"] && SortBy(["A", "a"], Self()) == ["A", "a"]
  {
    assert "a"[1..] == "" && "A"[1..] == "";
    assert Fold("a") == "A" && Fold("A") == "A";
    BelowIrreflexive("A");
    assert !KeyBelow(Self(), "a", "A") && !KeyBelow(Self(), "A", "a");
    assert ["a", "A"][..1] == ["a"] && ["A", "a"][..1] == ["A"];
    assert SortBy(["a"], Self()) == ["a"] by {
      assert ["a"][..0] == [];
    }
    assert SortBy(["A"], Self()) == ["A"] by {
      assert ["A"][..0] == [];
    }
  }

  /** Items with the same product id have the same identity hash. */
  lemma SameProductSameHash(p: Primitives, x: SellableItem, y: SellableItem)
    requires x.productId == y.productId
    ensures AsWrittenHash(p, ByProductId, Some(x)) == AsWrittenHash(p, ByProductId, Some(y))
  {
  }

  // ---------------------------------------------------------------------
  // The two comparers the reconciliation builds

  function ProductIdComparer(p: Primitives): Linq.Comparer<SellableItem> {
    Linq.Comparer((x: SellableItem, y: SellableItem) => x.productId == y.productId,
                  (x: SellableItem) => MixField(p, 17, x.productId))
  }

  /** `Equals` under `ByImportData`, as the comparer object hands it to LINQ. */
  function ContentEquals(p: Primitives): (SellableItem, SellableItem) -> bool {
    (x: SellableItem, y: SellableItem) => ImportDataEqual(p, x, y)
  }

  /** The content comparer the import block builds, with `GetHashCode` as
      written; an item without a price list, on which the hash throws, is
      kept away from it by the caller. */
  function AsWrittenDataComparer(p: Primitives): (r: Linq.Comparer<SellableItem>)
    ensures forall x, y :: r.equals(x, y) <==> Equals(p, ByImportData, Some(x), Some(y)) == Success(true)
    ensures forall x: SellableItem :: x.prices.Some? ==> AsWrittenHash(p, ByImportData, Some(x)) == Success(r.hash(x))
  {
    Linq.Comparer(ContentEquals(p), (x: SellableItem) => ContentHashOver(p, x, x.prices.GetOr([]), x.images.GetOr([])))
  }

  /** Content equality with the corrected hash. */
  function ImportDataComparer(p: Primitives): (r: Linq.Comparer<SellableItem>)
    ensures forall x, y :: r.equals(x, y) <==> Equals(p, ByImportData, Some(x), Some(y)) == Success(true)
    ensures forall x: SellableItem :: x.prices.Some? ==> CorrectedHash(p, ByImportData, Some(x)) == Success(r.hash(x))
  {
    Linq.Comparer(ContentEquals(p), (x: SellableItem) => ContentHash(p, x))
  }

  /** The item holds its prices and its images in the order `Equals` sorts
      them into, as a single price or a single image always is. */
  predicate ListedSorted(x: SellableItem) {
    && SortBy(x.prices.GetOr([]), CurrencyKey()) == x.prices.GetOr([])
    && SortBy(x.images.GetOr([]), Self()) == x.images.GetOr([])
  }

  /** On items listed in sorted order the hash as written is the corrected
      one, so there it keeps the contract of `IEqualityComparer`. */
  lemma AsWrittenConsistentOnSorted(p: Primitives, xs: seq<SellableItem>)
    requires MoneyLaws(p)
    requires forall x :: x in xs ==> ListedSorted(x)
    ensures Linq.ConsistentOn(AsWrittenDataComparer(p), xs) && Linq.Transitive(AsWrittenDataComparer(p))
    ensures forall x :: x in xs ==> AsWrittenDataComparer(p).hash(x) == ImportDataComparer(p).hash(x)
  {
    ImportDataComparerLaws(p);
  }

  /** So on such items `Except` gives the same result with either hash. */
  lemma AsWrittenExceptOnSorted(p: Primitives, first: seq<SellableItem>, second: seq<SellableItem>)
    requires MoneyLaws(p)
    requires forall x :: x in first + second ==> ListedSorted(x)
    ensures Linq.Except(first, second, AsWrittenDataComparer(p)) == Linq.Except(first, second, ImportDataComparer(p))
  {
    AsWrittenConsistentOnSorted(p, first + second);
    ImportDataComparerLaws(p);
    Linq.ExceptIsSpec(first, second, AsWrittenDataComparer(p));
    Linq.ExceptIsSpec(first, second, ImportDataComparer(p));
  }

  lemma ProductIdComparerLaws(p: Primitives)
    ensures Linq.Consistent(ProductIdComparer(p)) && Linq.Transitive(ProductIdComparer(p))
  {
  }

  lemma ImportDataComparerLaws(p: Primitives)
    requires MoneyLaws(p)
    ensures Linq.Consistent(ImportDataComparer(p)) && Linq.Transitive(ImportDataComparer(p))
  {
    forall x, y | ImportDataEqual(p, x, y)
      ensures ContentHash(p, x) == ContentHash(p, y)
    {
      if x.prices.Some? {
        EqualItemsHashAlike(p, ByImportData, x, y);
      }
    }
    ImportDataEquivalence(p);
  }

  /** Content equality implies identity. */
  lemma ImportDataImpliesProductId(p: Primitives, x: SellableItem, y: SellableItem)
    requires ImportDataEqual(p, x, y)
    ensures x.productId == y.productId
  {
  }
}
