/** `ImportCategoriesFromD365Block.Run`: transform the ERP category records
    into category drafts, then reconcile them with storage. The category
    comparer is not part of this model: its two configurations (by id, by
    data) are given as comparers, and the lemmas state what they assume of
    them. Any exception aborts the pipeline; the block always returns null. */
module CategoryImport {
  import opened Wrappers
  import opened Host
  import opened Entities
  import opened BulkCommands
  import opened Reconcile
  import CategoryTransform
  import Linq

  function CategoryKind(): Kind<Category> {
    Kind((x: Category) => x.id,
         (x: Category) => CategoryEntity(x),
         (x: Category) => x.transient,
         (x: Category, t: Option<TransientData>) => x.(transient := t))
  }

  lemma CategoryKindLawful()
    ensures Lawful(CategoryKind())
  {
  }

  /** Nothing the reconciliation does with a category throws. */
  function NoFault(): Category -> Option<ImportError> {
    (x: Category) => None
  }

  /** A run: an information message once the records are in, the
      transform, a second information message, then the reconciliation with
      the two comparers the block builds; an exception adds the error
      message the pipeline aborts with. */
  function RunOutcome(n: Naming, rows: seq<Row>, catalogs: map<string, Catalog>,
                      contextsFor: seq<string> -> seq<CatalogContext>,
                      byId: Linq.Comparer<Category>, byData: Linq.Comparer<Category>,
                      c: Collaborators<Category>): Outcome
  {
    BlockOutcome(CategoryKind(), c, CategoryTransform.Transform(n, rows, catalogs, contextsFor), byId, byData, NoFault())
  }

  /** `Run`. The ERP fetch is given; it is non-empty, since an empty
      response throws before the block sees it. */
  method Run(ctx: CommerceContext, n: Naming, importRawLines: seq<Row>,
             allCatalogs: map<string, Catalog>, contextsFor: seq<string> -> seq<CatalogContext>,
             byId: Linq.Comparer<Category>, byData: Linq.Comparer<Category>, c: Collaborators<Category>)
    returns (r: Option<string>)
    requires |importRawLines| > 0
    modifies ctx
    ensures r.None?
    ensures var o := RunOutcome(n, importRawLines, allCatalogs, contextsFor, byId, byData, c);
      && ctx.log == old(ctx.log) + o.warnings
      && ctx.effects == old(ctx.effects) + o.effects
      && ctx.messages == Replay(old(ctx.messages), o.effects, c.report)
      && ctx.aborted == (if o.error.Some? then o.error else old(ctx.aborted))
  {
    ctx.Perform(AddMessage(Information), c.report);
    var importItems := CategoryTransform.Process(n, importRawLines, allCatalogs, contextsFor);
    AfterTransform(ctx, CategoryKind(), c, importItems, byId, byData, NoFault(),
                   old(ctx.messages), old(ctx.effects), old(ctx.log), old(ctx.aborted));
    return None;
  }

  // ---------------------------------------------------------------------
  // What a run decides

  /** The comparer that matches categories by their id. */
  ghost predicate MatchesById(byId: Linq.Comparer<Category>) {
    forall a, b :: byId.equals(a, b) <==> a.id == b.id
  }

  /** With a comparer that matches by id, the new categories are exactly
      the drafts whose id no stored category has. */
  lemma NewCategoriesById(n: Naming, rows: seq<Row>, catalogs: map<string, Catalog>,
                          contextsFor: seq<string> -> seq<CatalogContext>,
                          existing: seq<Category>, byId: Linq.Comparer<Category>, x: Category)
    requires CategoryTransform.Transform(n, rows, catalogs, contextsFor).Success?
    requires Linq.Consistent(byId) && MatchesById(byId)
    ensures var items := CategoryTransform.Transform(n, rows, catalogs, contextsFor).value.0;
      x in Linq.Except(items, existing, byId) <==> x in items && forall s :: s in existing ==> s.id != x.id
  {
    var items := CategoryTransform.Transform(n, rows, catalogs, contextsFor).value.0;
    var origin := CategoryTransform.TransformResult(n, rows, catalogs, contextsFor);
    NewItemsAreUnmatched(items, existing, byId, x);
  }

  /** Categories never abort after the transform: a run aborts exactly when
      the transform throws, and then it makes no call but the information
      message and the error message. */
  lemma RunAborts(n: Naming, rows: seq<Row>, catalogs: map<string, Catalog>,
                  contextsFor: seq<string> -> seq<CatalogContext>,
                  byId: Linq.Comparer<Category>, byData: Linq.Comparer<Category>, c: Collaborators<Category>)
    ensures var t := CategoryTransform.Transform(n, rows, catalogs, contextsFor);
      var o := RunOutcome(n, rows, catalogs, contextsFor, byId, byData, c);
      && (o.error.Some? <==> t.Failure?)
      && (t.Failure? ==> o.error == Some(t.error) && o.effects == [AddMessage(Information), AddMessage(Error)])
      && (t.Success? ==> AddMessage(Error) !in o.effects)
  {
    var t := CategoryTransform.Transform(n, rows, catalogs, contextsFor);
    if t.Success? {
      var items := t.value.0;
      FirstFaultFound(items + Existing(CategoryKind(), c, items), NoFault());
      assert t == Success((items, t.value.1));
      TransformedOutcome(CategoryKind(), c, items, t.value.1, byId, byData, NoFault());
    }
  }

  /** Rerunning an import the store already holds does nothing, for any
      pair of reflexive comparers. */
  lemma RerunNothingToDo(c: Collaborators<Category>, imports: seq<Category>,
                         byId: Linq.Comparer<Category>, byData: Linq.Comparer<Category>)
    requires forall x :: byId.equals(x, x)
    requires forall x :: byData.equals(x, x)
    ensures var plan := Classify(CategoryKind(), c, imports, imports, byId, byData);
      plan.newItems == [] && plan.changedItems == [] && plan.toPersist == []
      && plan.toCreate == [] && plan.toRemove == []
  {
    Reconcile.RerunNothingToDo(CategoryKind(), c, imports, byId, byData);
  }
}
