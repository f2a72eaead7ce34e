/** `ImportSellableItemsFromD365Block.Run`: transform the ERP records into
    sellable-item drafts, then reconcile them with storage. New items are
    the drafts no stored item matches by product id; changed items are the
    stored items no draft equals by content. Any exception aborts the
    pipeline; the block always returns null. */
module SellableImport {
  import opened Wrappers
  import opened Host
  import opened Entities
  import opened BulkCommands
  import opened Reconcile
  import opened SellableComparer
  import SellableTransform
  import Linq
  import Text

  function SellableKind(): Kind<SellableItem> {
    Kind((x: SellableItem) => x.id,
         (x: SellableItem) => SellableEntity(x),
         (x: SellableItem) => x.transient,
         (x: SellableItem, t: Option<TransientData>) => x.(transient := t))
  }

  lemma SellableKindLawful()
    ensures Lawful(SellableKind())
  {
  }

  /** The content hash walks the price list: a null one throws. */
  function PriceFault(): SellableItem -> Option<ImportError> {
    (x: SellableItem) => if x.prices.None? then Some(NullPrices) else None
  }

  /** A run: an information message once the records are in, the
      transform, a second information message, then the reconciliation with
      the two comparers the block builds; an exception adds the error
      message the pipeline aborts with. */
  function RunOutcome(n: Naming, rows: seq<Row>, categoryRows: seq<Row>, assignmentRows: seq<Row>,
                      catalogs: map<string, Catalog>, contextsFor: seq<string> -> seq<CatalogContext>,
                      p: Primitives, c: Collaborators<SellableItem>): Outcome
    requires |categoryRows| > 0
  {
    BlockOutcome(SellableKind(), c, SellableTransform.Transform(n, rows, categoryRows, assignmentRows, catalogs, contextsFor),
                 ProductIdComparer(p), AsWrittenDataComparer(p), PriceFault())
  }

  /** `Run`. The three ERP fetches are given; each is non-empty, since an
      empty response throws before the block sees it. */
  method Run(ctx: CommerceContext, n: Naming, importRawLines: seq<Row>, categoryRows: seq<Row>, assignmentRows: seq<Row>,
             allCatalogs: map<string, Catalog>, contextsFor: seq<string> -> seq<CatalogContext>,
             p: Primitives, c: Collaborators<SellableItem>)
    returns (r: Option<string>)
    requires |importRawLines| > 0 && |categoryRows| > 0 && |assignmentRows| > 0
    modifies ctx
    ensures r.None?
    ensures var o := RunOutcome(n, importRawLines, categoryRows, assignmentRows, allCatalogs, contextsFor, p, c);
      && ctx.log == old(ctx.log) + o.warnings
      && ctx.effects == old(ctx.effects) + o.effects
      && ctx.messages == Replay(old(ctx.messages), o.effects, c.report)
      && ctx.aborted == (if o.error.Some? then o.error else old(ctx.aborted))
  {
    var sellableItemComparerByProductId := ProductIdComparer(p);
    var sellableItemComparerByImportData := AsWrittenDataComparer(p);
    ctx.Perform(AddMessage(Information), c.report);
    var importItems := SellableTransform.Process(n, importRawLines, categoryRows, assignmentRows, allCatalogs, contextsFor);
    AfterTransform(ctx, SellableKind(), c, importItems, sellableItemComparerByProductId, sellableItemComparerByImportData,
                   PriceFault(), old(ctx.messages), old(ctx.effects), old(ctx.log), old(ctx.aborted));
    return None;
  }

  // ---------------------------------------------------------------------
  // What a run decides

  /** The drafts a successful transform returns have pairwise distinct
      product ids, since each draft's id is derived from its product id and
      the ids are pairwise distinct. */
  lemma TransformedProductsDistinct(n: Naming, rows: seq<Row>, categoryRows: seq<Row>, assignmentRows: seq<Row>,
                                    catalogs: map<string, Catalog>, contextsFor: seq<string> -> seq<CatalogContext>)
    requires |categoryRows| > 0
    requires SellableTransform.Transform(n, rows, categoryRows, assignmentRows, catalogs, contextsFor).Success?
    ensures var items := SellableTransform.Transform(n, rows, categoryRows, assignmentRows, catalogs, contextsFor).value.0;
      && (forall k :: 0 <= k < |items| ==> items[k].productId.Some? && items[k].prices.Some?)
      && (forall k :: 0 <= k < |items| ==> |items[k].prices.value| == 1 && items[k].images == n.newImages)
      && (forall k, l :: 0 <= k < l < |items| ==> items[k].productId != items[l].productId)
  {
    var drafts := SellableTransform.CoreDrafts(n, rows).value;
    var items := SellableTransform.Transform(n, rows, categoryRows, assignmentRows, catalogs, contextsFor).value.0;
    SellableTransform.TransformResult(n, rows, categoryRows, assignmentRows, catalogs, contextsFor);
    var origin := SellableTransform.CoreDraftsOrigins(n, rows);
    forall k | 0 <= k < |items|
      ensures items[k].productId == Some(rows[origin[k]][SellableTransform.ProductIdColumn])
      ensures items[k].id == n.sellableItemId(rows[origin[k]][SellableTransform.ProductIdColumn])
      ensures items[k].prices.Some? && |items[k].prices.value| == 1 && items[k].images == n.newImages
    {
      assert SellableTransform.BuiltFrom(n, rows, drafts[k], origin[k]);
    }
  }

  /** New items: exactly the drafts whose product id no stored item has. */
  lemma NewItemsByProductId(p: Primitives, imports: seq<SellableItem>, existing: seq<SellableItem>, x: SellableItem)
    requires forall i, j :: 0 <= i < j < |imports| ==> imports[i].productId != imports[j].productId
    ensures x in Linq.Except(imports, existing, ProductIdComparer(p)) <==>
            x in imports && forall s :: s in existing ==> s.productId != x.productId
  {
    ProductIdComparerLaws(p);
    NewItemsAreUnmatched(imports, existing, ProductIdComparer(p), x);
  }

  /** What the classification is meant to do: a draft and a stored item
      equal by content land in neither set. With the corrected hash this
      always holds; with the hash the block uses it holds once every draft
      and stored item lists its prices and images in sorted order. */
  lemma ContentEqualInNeither(p: Primitives, imports: seq<SellableItem>, existing: seq<SellableItem>,
                              d: SellableItem, s: SellableItem)
    requires MoneyLaws(p)
    requires d in imports && s in existing && ImportDataEqual(p, d, s)
    ensures d !in Linq.Except(imports, existing, ProductIdComparer(p))
    ensures s !in Linq.Except(existing, imports, ImportDataComparer(p))
    ensures (forall x :: x in existing + imports ==> ListedSorted(x)) ==>
              s !in Linq.Except(existing, imports, AsWrittenDataComparer(p))
  {
    ProductIdComparerLaws(p);
    ImportDataComparerLaws(p);
    ImportDataImpliesProductId(p, d, s);
    Linq.ExceptIsSpec(imports, existing, ProductIdComparer(p));
    Linq.ExceptSpecDrops(imports, existing, ProductIdComparer(p).equals, d, s);
    ChangedItemsAreUnmatched(existing, imports, ImportDataComparer(p), s);
    if forall x :: x in existing + imports ==> ListedSorted(x) {
      AsWrittenExceptOnSorted(p, existing, imports);
    }
  }

  /** Drafts hold one price each and the image list of a new images
      component, so they are listed in sorted order whenever that list is. */
  lemma DraftsListedSorted(n: Naming, rows: seq<Row>, categoryRows: seq<Row>, assignmentRows: seq<Row>,
                           catalogs: map<string, Catalog>, contextsFor: seq<string> -> seq<CatalogContext>)
    requires |categoryRows| > 0
    requires SellableTransform.Transform(n, rows, categoryRows, assignmentRows, catalogs, contextsFor).Success?
    requires Text.SortBy(n.newImages.GetOr([]), Self()) == n.newImages.GetOr([])
    ensures var items := SellableTransform.Transform(n, rows, categoryRows, assignmentRows, catalogs, contextsFor).value.0;
      forall x :: x in items ==> ListedSorted(x)
  {
    var items := SellableTransform.Transform(n, rows, categoryRows, assignmentRows, catalogs, contextsFor).value.0;
    TransformedProductsDistinct(n, rows, categoryRows, assignmentRows, catalogs, contextsFor);
    forall x | x in items
      ensures ListedSorted(x)
    {
      var m := x.prices.value[0];
      assert x.prices.value == [m];
      assert [m][..0] == [];
    }
  }

  /** The as-written half of the hash finding, at the level of the block:
      a stored item equal by content to the draft of its product, but
      holding the draft's two images in the opposite order, hashes apart
      from it. The set probe misses, so the block counts it as changed,
      copies the draft into it and persists it; with the corrected hash
      nothing would be new or changed. */
  lemma ReorderedImagesCountAsChanged(c: Collaborators<SellableItem>)
    returns (p: Primitives, d: SellableItem, s: SellableItem)
    ensures MoneyLaws(p) && ImportDataEqual(p, d, s) && d.productId == s.productId
    ensures var plan := Classify(SellableKind(), c, [d], [s], ProductIdComparer(p), AsWrittenDataComparer(p));
      plan.newItems == [] && plan.changedItems == [s] && |plan.toPersist| == 1
    ensures var plan := Classify(SellableKind(), c, [d], [s], ProductIdComparer(p), ImportDataComparer(p));
      plan.newItems == [] && plan.changedItems == [] && plan.toPersist == []
  {
    p, d, s := AsWrittenHashSeesImageOrder();
    var w := AsWrittenDataComparer(p);
    assert w.hash(d) == 9018 && w.hash(s) == 9040;
    Linq.ExceptSingleton(s, d, w);
    Linq.ExceptSingleton(s, d, ImportDataComparer(p));
    Linq.ExceptSingleton(d, s, ProductIdComparer(p));
    ContentEqualInNeither(p, [d], [s], d, s);
  }

  /** Rerunning an import the store already holds does nothing: when the
      stored items are the drafts themselves, nothing is new or changed,
      and nothing is persisted, linked or unlinked, with the hash as
      written. */
  lemma RerunNothingToDo(p: Primitives, c: Collaborators<SellableItem>, imports: seq<SellableItem>)
    requires MoneyLaws(p)
    ensures var plan := Classify(SellableKind(), c, imports, imports, ProductIdComparer(p), AsWrittenDataComparer(p));
      plan.newItems == [] && plan.changedItems == [] && plan.toPersist == []
      && plan.toCreate == [] && plan.toRemove == []
  {
    ImportDataEquivalence(p);
    Reconcile.RerunNothingToDo(SellableKind(), c, imports, ProductIdComparer(p), AsWrittenDataComparer(p));
  }

  /** A run aborts exactly when the transform throws, or when some draft or
      stored item has no price list for the content hash to walk. An abort
      writes nothing: before the transform it leaves the two messages, after
      it only the lookups and the messages, ending with the error. */
  lemma RunAborts(n: Naming, rows: seq<Row>, categoryRows: seq<Row>, assignmentRows: seq<Row>,
                  catalogs: map<string, Catalog>, contextsFor: seq<string> -> seq<CatalogContext>,
                  p: Primitives, c: Collaborators<SellableItem>)
    requires |categoryRows| > 0
    ensures var t := SellableTransform.Transform(n, rows, categoryRows, assignmentRows, catalogs, contextsFor);
      var o := RunOutcome(n, rows, categoryRows, assignmentRows, catalogs, contextsFor, p, c);
      && (t.Failure? ==> o.error == Some(t.error) && o.effects == [AddMessage(Information), AddMessage(Error)])
      && (t.Success? ==>
            var all := t.value.0 + Existing(SellableKind(), c, t.value.0);
            && (o.error.Some? <==> exists i :: 0 <= i < |all| && all[i].prices.None?)
            && (o.error.Some? ==>
                  && o.error == Some(NullPrices)
                  && o.effects[|o.effects| - 1] == AddMessage(Error)
                  && forall e :: e in o.effects ==> e.Find? || e.AddMessage?)
            && (o.error.None? ==> AddMessage(Error) !in o.effects))
  {
    OutcomeAborts(SellableTransform.Transform(n, rows, categoryRows, assignmentRows, catalogs, contextsFor), p, c);
  }

  /** `RunAborts` for any result of the transform. */
  lemma OutcomeAborts(t: Result<(seq<SellableItem>, seq<Warning>), ImportError>, p: Primitives, c: Collaborators<SellableItem>)
    ensures var o := BlockOutcome(SellableKind(), c, t, ProductIdComparer(p), AsWrittenDataComparer(p), PriceFault());
      && (t.Failure? ==> o.error == Some(t.error) && o.effects == [AddMessage(Information), AddMessage(Error)])
      && (t.Success? ==>
            var all := t.value.0 + Existing(SellableKind(), c, t.value.0);
            && (o.error.Some? <==> exists i :: 0 <= i < |all| && all[i].prices.None?)
            && (o.error.Some? ==>
                  && o.error == Some(NullPrices)
                  && o.effects[|o.effects| - 1] == AddMessage(Error)
                  && forall e :: e in o.effects ==> e.Find? || e.AddMessage?)
            && (o.error.None? ==> AddMessage(Error) !in o.effects))
  {
    if t.Success? {
      var items := t.value.0;
      var all := items + Existing(SellableKind(), c, items);
      assert t == Success((items, t.value.1));
      TransformedOutcome(SellableKind(), c, items, t.value.1, ProductIdComparer(p), AsWrittenDataComparer(p), PriceFault());
      FirstFaultFound(all, PriceFault());
      if RunFault(SellableKind(), c, items, PriceFault()).Some? {
        var i :| 0 <= i < |all| && PriceFault()(all[i]) == RunFault(SellableKind(), c, items, PriceFault());
      } else {
        forall i | 0 <= i < |all|
          ensures all[i].prices.Some?
        {
          assert PriceFault()(all[i]).None?;
        }
      }
    }
  }
}
