/** `TransformImportToSellableItemsCommand`: ERP product records become
    sellable-item drafts. The four passes run in order over the drafts:
    building them from the product records, attaching category and catalog
    associations from the assignment records, resolving the catalogs, and
    resolving the categories. Every pass is a method with the loops of the
    source, proved equal to a function that later lemmas reason about. */
module SellableTransform {
  import opened Wrappers
  import opened Host
  import opened Associations
  import opened Entities
  import opened Folds
  import Linq
  import Text

  // Columns of a product record.
  const ProductIdColumn: string := "ItemNumber"
  const ProductNameColumn: string := "SearchName"
  const DisplayNameColumn: string := "ProductName"
  const TypeOfGoodColumn: string := "ItemModelGroupId"
  const ListPriceColumn: string := "SalesPrice"
  // Columns of a product-to-category assignment record.
  const ProductNumberColumn: string := "ProductNumber"
  const ProductCatalogNameColumn: string := "ProductCategoryHierarchyName"
  const ProductCategoryDisplayNameColumn: string := "ProductCategoryName"
  // Columns of a category record.
  const CategoryDisplayNameColumn: string := "Name"
  const CategoryNameColumn: string := "AxRecId"
  const CategoryCatalogNameColumn: string := "EcoResCategoryHierarchy_Name"

  // ---------------------------------------------------------------------
  // TransformCore: one draft per product id, the first record wins

  /** A record `TransformCore` can build a draft from: every column it reads
      is there and the sales price parses. */
  predicate CompleteRow(n: Naming, row: Row) {
    && ProductIdColumn in row && ProductNameColumn in row && DisplayNameColumn in row
    && TypeOfGoodColumn in row && ListPriceColumn in row
    && n.parseDecimal(row[ListPriceColumn]).Some?
  }

  /** The draft built from a record whose product id has no draft yet. */
  function DraftFromRow(n: Naming, row: Row): (r: Result<SellableItem, ImportError>)
    ensures r.Success? <==> CompleteRow(n, row)
    ensures r.Success? ==>
      && r.value.productId == Some(row[ProductIdColumn])
      && r.value.id == n.sellableItemId(row[ProductIdColumn])
      && r.value.friendlyId == row[ProductIdColumn]
      && r.value.sitecoreId == n.deterministicGuid(r.value.id)
      && r.value.name == Some(row[ProductNameColumn])
      && r.value.displayName == Some(row[DisplayNameColumn])
      && r.value.typeOfGood == Some(row[TypeOfGoodColumn])
      && r.value.prices == Some([Money(Usd, n.parseDecimal(row[ListPriceColumn]).value)])
      && r.value.memberships == [n.sellableItemsList, n.catalogItemsList]
      && r.value.transient.None?
  {
    var productId :- Column(row, ProductIdColumn);
    var id := n.sellableItemId(productId);
    var name :- Column(row, ProductNameColumn);
    var displayName :- Column(row, DisplayNameColumn);
    var typeOfGood :- Column(row, TypeOfGoodColumn);
    var priceText :- Column(row, ListPriceColumn);
    match n.parseDecimal(priceText)
    case None => Failure(BadPrice(priceText))
    case Some(amount) =>
      Success(SellableItem(
        id, n.deterministicGuid(id), productId, Some(productId), Some(name), Some(displayName),
        None, None, None, Some(typeOfGood), None, None, None,
        Some([Money(Usd, amount)]), n.newImages,
        [n.sellableItemsList, n.catalogItemsList], [], None))
  }

  /** The draft id a record maps to. */
  function RowId(n: Naming, row: Row): Result<string, ImportError> {
    var productId :- Column(row, ProductIdColumn);
    Success(n.sellableItemId(productId))
  }

  predicate HasDraft(drafts: seq<SellableItem>, id: string) {
    exists k :: 0 <= k < |drafts| && drafts[k].id == id
  }

  /** `TransformCore` for one record: a new draft unless one with the same id exists. */
  function CoreRow(n: Naming, drafts: seq<SellableItem>, row: Row): Result<seq<SellableItem>, ImportError> {
    var id :- RowId(n, row);
    if HasDraft(drafts, id) then Success(drafts)
    else
      var draft :- DraftFromRow(n, row);
      Success(drafts + [draft])
  }

  function CoreStep(n: Naming): (seq<SellableItem>, Row) -> Result<seq<SellableItem>, ImportError> {
    (drafts: seq<SellableItem>, row: Row) => CoreRow(n, drafts, row)
  }

  function CoreDrafts(n: Naming, rows: seq<Row>): Result<seq<SellableItem>, ImportError> {
    FoldSteps(rows, [], CoreStep(n))
  }

  predicate DistinctIds(items: seq<SellableItem>) {
    forall k, l :: 0 <= k < l < |items| ==> items[k].id != items[l].id
  }

  /** Record `j` is the first record that maps to `id`. */
  predicate FirstWithId(n: Naming, rows: seq<Row>, j: nat, id: string)
    requires j < |rows|
  {
    RowId(n, rows[j]) == Success(id) && forall i :: 0 <= i < j ==> RowId(n, rows[i]) != Success(id)
  }

  /** What one successful `TransformCore` step did. */
  lemma CoreStepCases(n: Naming, drafts: seq<SellableItem>, row: Row)
    requires CoreRow(n, drafts, row).Success?
    ensures RowId(n, row).Success?
    ensures HasDraft(drafts, RowId(n, row).value) ==> CoreRow(n, drafts, row).value == drafts
    ensures !HasDraft(drafts, RowId(n, row).value) ==>
              && DraftFromRow(n, row).Success?
              && DraftFromRow(n, row).value.id == RowId(n, row).value
              && CoreRow(n, drafts, row).value == drafts + [DraftFromRow(n, row).value]
  {
  }

  /** Records sharing an id yield one draft: the drafts have distinct ids. */
  lemma {:induction false} CoreDraftsDistinct(n: Naming, rows: seq<Row>)
    requires CoreDrafts(n, rows).Success?
    ensures DistinctIds(CoreDrafts(n, rows).value)
  {
    if |rows| > 0 {
      var init := rows[..|rows| - 1];
      FoldLast(rows, [], CoreStep(n));
      CoreDraftsDistinct(n, init);
      CoreStepCases(n, CoreDrafts(n, init).value, rows[|rows| - 1]);
    }
  }

  /** Draft `d` was built from record `o`, the first record with its id. */
  predicate BuiltFrom(n: Naming, rows: seq<Row>, d: SellableItem, o: nat) {
    o < |rows| && FirstWithId(n, rows, o, d.id) && DraftFromRow(n, rows[o]) == Success(d)
  }

  /** The record's id has a draft. */
  predicate RowHasDraft(n: Naming, row: Row, drafts: seq<SellableItem>) {
    RowId(n, row).Success? && HasDraft(drafts, RowId(n, row).value)
  }

  predicate Origins(n: Naming, rows: seq<Row>, drafts: seq<SellableItem>, origin: seq<nat>) {
    && |origin| == |drafts|
    && (forall k :: 0 <= k < |origin| ==> BuiltFrom(n, rows, drafts[k], origin[k]))
    && (forall k, l :: 0 <= k < l < |origin| ==> origin[k] < origin[l])
    && (forall j :: 0 <= j < |rows| ==> RowHasDraft(n, rows[j], drafts))
  }

  lemma BuiltFromExtends(n: Naming, rows: seq<Row>, row: Row, d: SellableItem, o: nat)
    requires BuiltFrom(n, rows, d, o)
    ensures BuiltFrom(n, rows + [row], d, o)
  {
    var rows' := rows + [row];
    assert forall i :: 0 <= i <= o ==> rows'[i] == rows[i];
  }

  /** Each draft was built from the first record with its id, the drafts are
      in the order of those records, and every record's id has a draft. So a
      later record with the same id changes nothing in the draft. */
  lemma {:induction false} CoreDraftsOrigins(n: Naming, rows: seq<Row>) returns (origin: seq<nat>)
    requires CoreDrafts(n, rows).Success?
    ensures Origins(n, rows, CoreDrafts(n, rows).value, origin)
  {
    if |rows| == 0 {
      origin := [];
    } else {
      var init, last := rows[..|rows| - 1], rows[|rows| - 1];
      assert rows == init + [last];
      FoldLast(rows, [], CoreStep(n));
      var prevOrigin := CoreDraftsOrigins(n, init);
      var prev := CoreDrafts(n, init).value;
      var drafts := CoreDrafts(n, rows).value;
      CoreStepCases(n, prev, last);
      var id := RowId(n, last).value;
      if HasDraft(prev, id) {
        origin := prevOrigin;
        OriginsKeep(n, init, last, prev, prevOrigin);
      } else {
        var d := DraftFromRow(n, last).value;
        origin := prevOrigin + [|init|];
        OriginsGrow(n, init, last, prev, prevOrigin, d);
      }
    }
  }

  /** A record whose id already has a draft keeps the origins. */
  lemma OriginsKeep(n: Naming, init: seq<Row>, last: Row, prev: seq<SellableItem>, prevOrigin: seq<nat>)
    requires Origins(n, init, prev, prevOrigin)
    requires RowId(n, last).Success? && HasDraft(prev, RowId(n, last).value)
    ensures Origins(n, init + [last], prev, prevOrigin)
  {
    var rows := init + [last];
    forall k | 0 <= k < |prevOrigin|
      ensures BuiltFrom(n, rows, prev[k], prevOrigin[k])
    {
      BuiltFromExtends(n, init, last, prev[k], prevOrigin[k]);
    }
    assert forall j :: 0 <= j < |init| ==> rows[j] == init[j];
  }

  /** A record with a new id appends its draft, built from it. */
  lemma OriginsGrow(n: Naming, init: seq<Row>, last: Row, prev: seq<SellableItem>, prevOrigin: seq<nat>, d: SellableItem)
    requires Origins(n, init, prev, prevOrigin)
    requires RowId(n, last) == Success(d.id) && !HasDraft(prev, d.id) && DraftFromRow(n, last) == Success(d)
    ensures Origins(n, init + [last], prev + [d], prevOrigin + [|init|])
  {
    var rows, drafts, origin := init + [last], prev + [d], prevOrigin + [|init|];
    forall k | 0 <= k < |prev|
      ensures BuiltFrom(n, rows, drafts[k], origin[k])
    {
      BuiltFromExtends(n, init, last, prev[k], prevOrigin[k]);
    }
    forall i | 0 <= i < |init|
      ensures RowId(n, rows[i]) != Success(d.id)
    {
      assert rows[i] == init[i];
      assert RowHasDraft(n, init[i], prev);
    }
    assert BuiltFrom(n, rows, d, |init|);
    forall j | 0 <= j < |init|
      ensures RowHasDraft(n, rows[j], drafts)
    {
      assert rows[j] == init[j];
      assert RowHasDraft(n, init[j], prev);
      var k :| 0 <= k < |prev| && prev[k].id == RowId(n, init[j]).value;
      assert drafts[k] == prev[k];
    }
    assert drafts[|prev|] == d;
  }

  // ---------------------------------------------------------------------
  // TransformD365Category: assignments become category and catalog associations

  predicate AllHaveColumn(rows: seq<Row>, column: string) {
    forall i :: 0 <= i < |rows| ==> column in rows[i]
  }

  function KeyIs(column: string, key: string): Row -> bool {
    (row: Row) => column in row && row[column] == key
  }

  /** `lookup[key]` of a lookup built over `column`: the records with that key, in order. */
  function Group(rows: seq<Row>, column: string, key: string): seq<Row> {
    Linq.Where(rows, KeyIs(column, key))
  }

  function ProductIdText(item: SellableItem): string {
    item.productId.GetOr("")
  }

  /** The assignment records of an item's product id. */
  function AssignmentsOf(item: SellableItem, assignmentRows: seq<Row>): seq<Row> {
    match item.productId
    case None => []
    case Some(p) => Group(assignmentRows, ProductNumberColumn, p)
  }

  /** The category association one assignment record yields: the category is
      looked up by display name among the category records, and the first
      match gives its name; an unknown display name stops the import. */
  function AssociationOf(productId: string, categoryRows: seq<Row>, assignment: Row): Result<CategoryAssociation, ImportError> {
    var displayName :- Column(assignment, ProductCategoryDisplayNameColumn);
    var matches := Group(categoryRows, CategoryDisplayNameColumn, displayName);
    if |matches| == 0 then Failure(UnknownCategory(productId, displayName))
    else
      var catalogName :- Column(assignment, ProductCatalogNameColumn);
      var categoryName :- Column(matches[0], CategoryNameColumn);
      Success(CategoryAssociation(catalogName, categoryName))
  }

  function AssociationFn(productId: string, categoryRows: seq<Row>): Row -> Result<CategoryAssociation, ImportError> {
    (assignment: Row) => AssociationOf(productId, categoryRows, assignment)
  }

  function CatalogNamesOf(list: seq<CategoryAssociation>): (r: seq<string>)
    ensures |r| == |list| && forall i :: 0 <= i < |list| ==> r[i] == list[i].catalogName
  {
    seq(|list|, i requires 0 <= i < |list| => list[i].catalogName)
  }

  /** New catalog associations, none of them a parent association. */
  function PlainCatalogAssociations(names: seq<string>): (r: seq<CatalogAssociation>)
    ensures |r| == |names| && forall i :: 0 <= i < |names| ==> r[i] == CatalogAssociation(names[i], false)
  {
    seq(|names|, i requires 0 <= i < |names| => CatalogAssociation(names[i], false))
  }

  /** The item after its assignments are read: one category association per
      assignment record and then one catalog association per distinct catalog
      name; without assignment records, the default catalog alone. */
  function ItemWithCategories(item: SellableItem, categoryRows: seq<Row>, assignmentRows: seq<Row>, defaultCatalog: string)
    : Result<SellableItem, ImportError>
  {
    var data := SellableTransient(item);
    var assignments := AssignmentsOf(item, assignmentRows);
    if |assignments| > 0 then
      var list :- FoldSteps(assignments, data.categoryAssociations, MapStep(AssociationFn(ProductIdText(item), categoryRows)));
      var names := Linq.Distinct(CatalogNamesOf(list));
      Success(item.(transient := Some(data.(
        categoryAssociations := list,
        catalogAssociations := data.catalogAssociations + PlainCatalogAssociations(names)))))
    else
      Success(item.(transient := Some(data.(
        catalogAssociations := data.catalogAssociations + [CatalogAssociation(defaultCatalog, false)]))))
  }

  function AssignFn(categoryRows: seq<Row>, assignmentRows: seq<Row>, defaultCatalog: string)
    : SellableItem -> Result<SellableItem, ImportError>
  {
    (item: SellableItem) => ItemWithCategories(item, categoryRows, assignmentRows, defaultCatalog)
  }

  /** The whole pass: both lookups read their key column from every record,
      the default catalog is the catalog of the first category record, then
      every item is processed in order. */
  function AssignedItems(items: seq<SellableItem>, categoryRows: seq<Row>, assignmentRows: seq<Row>)
    : Result<seq<SellableItem>, ImportError>
    requires |categoryRows| > 0
  {
    if !AllHaveColumn(categoryRows, CategoryDisplayNameColumn) then Failure(MissingColumn(CategoryDisplayNameColumn))
    else if !AllHaveColumn(assignmentRows, ProductNumberColumn) then Failure(MissingColumn(ProductNumberColumn))
    else
      var defaultCatalog :- Column(categoryRows[0], CategoryCatalogNameColumn);
      FoldSteps(items, [], MapStep(AssignFn(categoryRows, assignmentRows, defaultCatalog)))
  }

  method AssignItemCategories(item: SellableItem, categoryRows: seq<Row>, assignmentRows: seq<Row>, defaultCatalog: string)
    returns (r: Result<SellableItem, ImportError>)
    ensures r == ItemWithCategories(item, categoryRows, assignmentRows, defaultCatalog)
  {
    var data := SellableTransient(item);
    var assignmentList := AssignmentsOf(item, assignmentRows);
    if |assignmentList| > 0 {
      var step := MapStep(AssociationFn(ProductIdText(item), categoryRows));
      var categoryAssociations := data.categoryAssociations;
      var i := 0;
      while i < |assignmentList|
        invariant 0 <= i <= |assignmentList|
        invariant FoldSteps(assignmentList[..i], data.categoryAssociations, step) == Success(categoryAssociations)
      {
        FoldAt(assignmentList, data.categoryAssociations, step, i);
        var assignment := assignmentList[i];
        var categoryDisplayName :- Column(assignment, ProductCategoryDisplayNameColumn);
        var d365CategoryList := Group(categoryRows, CategoryDisplayNameColumn, categoryDisplayName);
        if |d365CategoryList| == 0 {
          return Failure(UnknownCategory(ProductIdText(item), categoryDisplayName));
        }
        var catalogName :- Column(assignment, ProductCatalogNameColumn);
        var categoryName :- Column(d365CategoryList[0], CategoryNameColumn);
        categoryAssociations := categoryAssociations + [CategoryAssociation(catalogName, categoryName)];
        i := i + 1;
      }
      assert assignmentList[..i] == assignmentList;
      var catalogNames := Linq.Distinct(CatalogNamesOf(categoryAssociations));
      var catalogAssociations := data.catalogAssociations;
      var j := 0;
      while j < |catalogNames|
        invariant 0 <= j <= |catalogNames|
        invariant catalogAssociations == data.catalogAssociations + PlainCatalogAssociations(catalogNames[..j])
      {
        catalogAssociations := catalogAssociations + [CatalogAssociation(catalogNames[j], false)];
        j := j + 1;
      }
      assert catalogNames[..j] == catalogNames;
      r := Success(item.(transient := Some(data.(
        categoryAssociations := categoryAssociations, catalogAssociations := catalogAssociations))));
    } else {
      r := Success(item.(transient := Some(data.(
        catalogAssociations := data.catalogAssociations + [CatalogAssociation(defaultCatalog, false)]))));
    }
  }

  method TransformD365Category(importItems: seq<SellableItem>, categoryRows: seq<Row>, assignmentRows: seq<Row>)
    returns (r: Result<seq<SellableItem>, ImportError>)
    requires |categoryRows| > 0
    ensures r == AssignedItems(importItems, categoryRows, assignmentRows)
  {
    if !AllHaveColumn(categoryRows, CategoryDisplayNameColumn) {
      return Failure(MissingColumn(CategoryDisplayNameColumn));
    }
    if !AllHaveColumn(assignmentRows, ProductNumberColumn) {
      return Failure(MissingColumn(ProductNumberColumn));
    }
    var defaultCatalogName :- Column(categoryRows[0], CategoryCatalogNameColumn);
    var step := MapStep(AssignFn(categoryRows, assignmentRows, defaultCatalogName));
    var items: seq<SellableItem> := [];
    var i := 0;
    while i < |importItems|
      invariant 0 <= i <= |importItems|
      invariant FoldSteps(importItems[..i], [], step) == Success(items)
    {
      FoldAt(importItems, [], step, i);
      var item :- AssignItemCategories(importItems[i], categoryRows, assignmentRows, defaultCatalogName);
      items := items + [item];
      i := i + 1;
    }
    assert importItems[..i] == importItems;
    r := Success(items);
  }

  /** A product without assignment records gets exactly one catalog
      association, to the default catalog, and no category association. */
  lemma UnassignedGetsDefaultCatalog(item: SellableItem, categoryRows: seq<Row>, assignmentRows: seq<Row>, defaultCatalog: string)
    requires item.transient.None?
    requires forall a :: a in assignmentRows ==> ProductNumberColumn in a && Some(a[ProductNumberColumn]) != item.productId
    ensures ItemWithCategories(item, categoryRows, assignmentRows, defaultCatalog).Success?
    ensures var data := SellableTransient(ItemWithCategories(item, categoryRows, assignmentRows, defaultCatalog).value);
      data.categoryAssociations == [] && data.catalogAssociations == [CatalogAssociation(defaultCatalog, false)]
  {
    if item.productId.Some? {
      var group := Group(assignmentRows, ProductNumberColumn, item.productId.value);
      if |group| > 0 {
        Linq.WhereMembers(assignmentRows, KeyIs(ProductNumberColumn, item.productId.value), group[0]);
        assert false;
      }
    }
  }

  /** A product with assignment records gets one category association per
      record, in order, and then one catalog association per distinct
      catalog name among them, none of them a parent association. */
  lemma AssignedGetsOnePerRecord(item: SellableItem, categoryRows: seq<Row>, assignmentRows: seq<Row>, defaultCatalog: string)
    requires item.transient.None?
    requires |AssignmentsOf(item, assignmentRows)| > 0
    requires ItemWithCategories(item, categoryRows, assignmentRows, defaultCatalog).Success?
    ensures var assignments := AssignmentsOf(item, assignmentRows);
      var data := SellableTransient(ItemWithCategories(item, categoryRows, assignmentRows, defaultCatalog).value);
      && |data.categoryAssociations| == |assignments|
      && (forall i :: 0 <= i < |assignments| ==>
            AssociationOf(ProductIdText(item), categoryRows, assignments[i]) == Success(data.categoryAssociations[i]))
      && Linq.NoDuplicates(CatalogNames(data))
      && (forall c :: c in CatalogNames(data) <==> exists i :: 0 <= i < |assignments| && data.categoryAssociations[i].catalogName == c)
      && (forall i :: 0 <= i < |data.catalogAssociations| ==> !data.catalogAssociations[i].isParent)
  {
    var assignments := AssignmentsOf(item, assignmentRows);
    var f := AssociationFn(ProductIdText(item), categoryRows);
    MapStepsPointwise(assignments, [], f);
    var list := FoldSteps(assignments, [], MapStep(f)).value;
    var names := Linq.Distinct(CatalogNamesOf(list));
    var data := SellableTransient(ItemWithCategories(item, categoryRows, assignmentRows, defaultCatalog).value);
    assert data.catalogAssociations == PlainCatalogAssociations(names);
    assert CatalogNames(data) == names;
    forall c
      ensures c in names <==> exists i :: 0 <= i < |assignments| && list[i].catalogName == c
    {
      if c in names {
        var i :| 0 <= i < |list| && CatalogNamesOf(list)[i] == c;
      }
      if exists i :: 0 <= i < |assignments| && list[i].catalogName == c {
        var i :| 0 <= i < |assignments| && list[i].catalogName == c;
        assert CatalogNamesOf(list)[i] == c;
      }
    }
  }

  /** An assignment record whose category display name matches no category
      record stops the import. */
  lemma UnknownCategoryAborts(item: SellableItem, categoryRows: seq<Row>, assignmentRows: seq<Row>, defaultCatalog: string, assignment: Row)
    requires assignment in AssignmentsOf(item, assignmentRows)
    requires ProductCategoryDisplayNameColumn in assignment
    requires |Group(categoryRows, CategoryDisplayNameColumn, assignment[ProductCategoryDisplayNameColumn])| == 0
    ensures ItemWithCategories(item, categoryRows, assignmentRows, defaultCatalog).Failure?
  {
    var assignments := AssignmentsOf(item, assignmentRows);
    var f := AssociationFn(ProductIdText(item), categoryRows);
    var i :| 0 <= i < |assignments| && assignments[i] == assignment;
    MapStepsFail(assignments, SellableTransient(item).categoryAssociations, f, i);
  }

  // ---------------------------------------------------------------------
  // TransformCatalog: catalog associations become catalog ids and edges

  /** What resolving one item's catalog associations produces: the Sitecore
      ids of the catalogs found, those of the parent catalogs among them, a
      catalog component per catalog found, the edges to the parent
      catalogs, and a warning per catalog not found. */
  datatype CatalogPass = CatalogPass(
    catalogList: seq<string>,
    parentCatalogList: seq<string>,
    components: seq<string>,
    edges: seq<ParentEdge>,
    warnings: seq<Warning>)

  /** The inner loop of `TransformCatalog` over one item's catalog associations. */
  function ResolveCatalogs(itemId: string, subject: string, assocs: seq<CatalogAssociation>, catalogs: map<string, Catalog>)
    : CatalogPass
  {
    if |assocs| == 0 then CatalogPass([], [], [], [], [])
    else
      var p := ResolveCatalogs(itemId, subject, assocs[..|assocs| - 1], catalogs);
      var a := assocs[|assocs| - 1];
      if a.name in catalogs then
        var c := catalogs[a.name];
        var found := p.(catalogList := p.catalogList + [c.sitecoreId], components := p.components + [a.name]);
        if a.isParent then
          found.(edges := found.edges + [EdgeToEntity(itemId, c.id, CatalogRef(c))],
                 parentCatalogList := found.parentCatalogList + [c.sitecoreId])
        else found
      else p.(warnings := p.warnings + [CatalogNotFound(subject, a.name)])
  }

  // The filters and projections that describe the pass without its loop.

  function CatalogEdge(itemId: string, catalogs: map<string, Catalog>): CatalogAssociation -> ParentEdge {
    (a: CatalogAssociation) =>
      if a.name in catalogs then EdgeToEntity(itemId, catalogs[a.name].id, CatalogRef(catalogs[a.name])) else NewEdge()
  }

  /** The pass, stated without its loop: every list is a projection of the
      associations that pass one filter; and every association either
      resolves or is warned about, never both. */
  lemma {:induction false} ResolveCatalogsFilters(itemId: string, subject: string, assocs: seq<CatalogAssociation>, catalogs: map<string, Catalog>)
    ensures var p := ResolveCatalogs(itemId, subject, assocs, catalogs);
      && p.catalogList == Linq.Select(Linq.Where(assocs, Resolvable(catalogs)), SitecoreIdOf(catalogs))
      && p.components == Linq.Select(Linq.Where(assocs, Resolvable(catalogs)), NameOf())
      && p.parentCatalogList == Linq.Select(Linq.Where(assocs, ParentResolvable(catalogs)), SitecoreIdOf(catalogs))
      && p.edges == Linq.Select(Linq.Where(assocs, ParentResolvable(catalogs)), CatalogEdge(itemId, catalogs))
      && p.warnings == Linq.Select(Linq.Where(assocs, Unresolvable(catalogs)), MissingCatalog(subject))
      && |p.catalogList| + |p.warnings| == |assocs|
  {
    ResolvedLists(itemId, subject, assocs, catalogs);
    ParentLists(itemId, subject, assocs, catalogs);
    WarnedLists(itemId, subject, assocs, catalogs);
  }

  lemma {:induction false} ResolvedLists(itemId: string, subject: string, assocs: seq<CatalogAssociation>, catalogs: map<string, Catalog>)
    ensures var p := ResolveCatalogs(itemId, subject, assocs, catalogs);
      && p.catalogList == Linq.Select(Linq.Where(assocs, Resolvable(catalogs)), SitecoreIdOf(catalogs))
      && p.components == Linq.Select(Linq.Where(assocs, Resolvable(catalogs)), NameOf())
  {
    if |assocs| > 0 {
      var init, a := assocs[..|assocs| - 1], assocs[|assocs| - 1];
      ResolvedLists(itemId, subject, init, catalogs);
      Linq.SelectSnoc(Linq.Where(init, Resolvable(catalogs)), a, SitecoreIdOf(catalogs));
      Linq.SelectSnoc(Linq.Where(init, Resolvable(catalogs)), a, NameOf());
    }
  }

  lemma {:induction false} ParentLists(itemId: string, subject: string, assocs: seq<CatalogAssociation>, catalogs: map<string, Catalog>)
    ensures var p := ResolveCatalogs(itemId, subject, assocs, catalogs);
      && p.parentCatalogList == Linq.Select(Linq.Where(assocs, ParentResolvable(catalogs)), SitecoreIdOf(catalogs))
      && p.edges == Linq.Select(Linq.Where(assocs, ParentResolvable(catalogs)), CatalogEdge(itemId, catalogs))
  {
    if |assocs| > 0 {
      var init, a := assocs[..|assocs| - 1], assocs[|assocs| - 1];
      ParentLists(itemId, subject, init, catalogs);
      Linq.SelectSnoc(Linq.Where(init, ParentResolvable(catalogs)), a, SitecoreIdOf(catalogs));
      Linq.SelectSnoc(Linq.Where(init, ParentResolvable(catalogs)), a, CatalogEdge(itemId, catalogs));
    }
  }

  lemma {:induction false} WarnedLists(itemId: string, subject: string, assocs: seq<CatalogAssociation>, catalogs: map<string, Catalog>)
    ensures var p := ResolveCatalogs(itemId, subject, assocs, catalogs);
      && p.warnings == Linq.Select(Linq.Where(assocs, Unresolvable(catalogs)), MissingCatalog(subject))
      && |p.catalogList| + |p.warnings| == |assocs|
  {
    if |assocs| > 0 {
      var init, a := assocs[..|assocs| - 1], assocs[|assocs| - 1];
      WarnedLists(itemId, subject, init, catalogs);
      Linq.SelectSnoc(Linq.Where(init, Unresolvable(catalogs)), a, MissingCatalog(subject));
    }
  }

  /** An item after its catalogs are resolved, with the warnings logged. An
      item without catalog associations stops the import. */
  function ItemWithCatalogs(item: SellableItem, catalogs: map<string, Catalog>)
    : Result<(SellableItem, seq<Warning>), ImportError>
  {
    var data := SellableTransient(item);
    if |data.catalogAssociations| == 0 then Failure(NoCatalog(item.name))
    else
      var p := ResolveCatalogs(item.id, ProductIdText(item), data.catalogAssociations, catalogs);
      Success((item.(
        catalogComponents := item.catalogComponents + p.components,
        catalogToEntityList := Text.JoinOrNull(p.catalogList),
        parentCatalogList := Text.JoinOrNull(p.parentCatalogList),
        transient := Some(data.(toCreate := data.toCreate + p.edges))), p.warnings))
  }

  function CatalogFn(catalogs: map<string, Catalog>): SellableItem -> Result<(SellableItem, seq<Warning>), ImportError> {
    (item: SellableItem) => ItemWithCatalogs(item, catalogs)
  }

  /** The whole pass over the drafts, keyed by catalog name. */
  function CatalogStage(items: seq<SellableItem>, catalogs: map<string, Catalog>)
    : Result<(seq<SellableItem>, seq<Warning>), ImportError>
  {
    FoldSteps(items, ([], []), LogStep(CatalogFn(catalogs)))
  }

  method ResolveItemCatalogs(item: SellableItem, catalogs: map<string, Catalog>)
    returns (r: Result<(SellableItem, seq<Warning>), ImportError>)
    ensures r == ItemWithCatalogs(item, catalogs)
  {
    var transientData := SellableTransient(item);
    var assocs := transientData.catalogAssociations;
    if |assocs| == 0 {
      return Failure(NoCatalog(item.name));
    }
    var catalogList: seq<string> := [];
    var parentCatalogList: seq<string> := [];
    var components: seq<string> := [];
    var edges: seq<ParentEdge> := [];
    var warnings: seq<Warning> := [];
    var j := 0;
    while j < |assocs|
      invariant 0 <= j <= |assocs|
      invariant CatalogPass(catalogList, parentCatalogList, components, edges, warnings)
             == ResolveCatalogs(item.id, ProductIdText(item), assocs[..j], catalogs)
    {
      assert assocs[..j + 1][..j] == assocs[..j];
      var catalogAssociation := assocs[j];
      if catalogAssociation.name in catalogs {
        var catalog := catalogs[catalogAssociation.name];
        catalogList := catalogList + [catalog.sitecoreId];
        components := components + [catalogAssociation.name];
        if catalogAssociation.isParent {
          edges := edges + [EdgeToEntity(item.id, catalog.id, CatalogRef(catalog))];
          parentCatalogList := parentCatalogList + [catalog.sitecoreId];
        }
      } else {
        warnings := warnings + [CatalogNotFound(ProductIdText(item), catalogAssociation.name)];
      }
      j := j + 1;
    }
    assert assocs[..j] == assocs;
    r := Success((item.(
      catalogComponents := item.catalogComponents + components,
      catalogToEntityList := Text.JoinOrNull(catalogList),
      parentCatalogList := Text.JoinOrNull(parentCatalogList),
      transient := Some(transientData.(toCreate := transientData.toCreate + edges))), warnings));
  }

  method TransformCatalog(importItems: seq<SellableItem>, allCatalogs: map<string, Catalog>)
    returns (r: Result<(seq<SellableItem>, seq<Warning>), ImportError>)
    ensures r == CatalogStage(importItems, allCatalogs)
  {
    var step := LogStep(CatalogFn(allCatalogs));
    var items: seq<SellableItem> := [];
    var log: seq<Warning> := [];
    var i := 0;
    while i < |importItems|
      invariant 0 <= i <= |importItems|
      invariant FoldSteps(importItems[..i], ([], []), step) == Success((items, log))
    {
      FoldAt(importItems, ([], []), step, i);
      var resolved :- ResolveItemCatalogs(importItems[i], allCatalogs);
      items := items + [resolved.0];
      log := log + resolved.1;
      i := i + 1;
    }
    assert importItems[..i] == importItems;
    r := Success((items, log));
  }

  // ---------------------------------------------------------------------
  // TransformCategory: category associations become category ids and edges

  /** One category association: a missing catalog context stops the import,
      a category found adds its Sitecore id and an edge to it, a category
      not found adds a warning. */
  function CategoryOne(n: Naming, itemId: string, subject: string, contexts: seq<CatalogContext>,
                       p: CategoryPass, a: CategoryAssociation): Result<CategoryPass, ImportError>
  {
    match FindContext(contexts, a.catalogName)
    case None => Failure(CatalogContextMissing(a.catalogName))
    case Some(context) =>
      if a.categoryName in context.categoriesByName then
        var category := context.categoriesByName[a.categoryName];
        Success(p.(categoryList := p.categoryList + [category.sitecoreId],
                   edges := p.edges + [EdgeToEntity(itemId, n.catalogId(a.catalogName), ToParentRef(category))]))
      else
        Success(p.(warnings := p.warnings + [CategoryNotFound(subject, a.categoryName)]))
  }

  function CategoryStep(n: Naming, itemId: string, subject: string, contexts: seq<CatalogContext>)
    : (CategoryPass, CategoryAssociation) -> Result<CategoryPass, ImportError>
  {
    (p: CategoryPass, a: CategoryAssociation) => CategoryOne(n, itemId, subject, contexts, p, a)
  }

  function ItemWithCategoryLinks(n: Naming, contexts: seq<CatalogContext>, item: SellableItem)
    : Result<(SellableItem, seq<Warning>), ImportError>
  {
    var data := SellableTransient(item);
    var p :- FoldSteps(data.categoryAssociations, NoCategories, CategoryStep(n, item.id, ProductIdText(item), contexts));
    Success((item.(
      parentCategoryList := Text.JoinOrNull(p.categoryList),
      transient := Some(data.(toCreate := data.toCreate + p.edges))), p.warnings))
  }

  function CategoryFn(n: Naming, contexts: seq<CatalogContext>): SellableItem -> Result<(SellableItem, seq<Warning>), ImportError> {
    (item: SellableItem) => ItemWithCategoryLinks(n, contexts, item)
  }

  function CategoryStage(n: Naming, items: seq<SellableItem>, contexts: seq<CatalogContext>)
    : Result<(seq<SellableItem>, seq<Warning>), ImportError>
  {
    FoldSteps(items, ([], []), LogStep(CategoryFn(n, contexts)))
  }

  method ResolveItemCategories(n: Naming, contexts: seq<CatalogContext>, item: SellableItem)
    returns (r: Result<(SellableItem, seq<Warning>), ImportError>)
    ensures r == ItemWithCategoryLinks(n, contexts, item)
  {
    var transientData := SellableTransient(item);
    var assocs := transientData.categoryAssociations;
    var step := CategoryStep(n, item.id, ProductIdText(item), contexts);
    var itemsCategoryList: seq<string> := [];
    var edges: seq<ParentEdge> := [];
    var warnings: seq<Warning> := [];
    var j := 0;
    while j < |assocs|
      invariant 0 <= j <= |assocs|
      invariant FoldSteps(assocs[..j], NoCategories, step) == Success(CategoryPass(itemsCategoryList, edges, warnings))
    {
      FoldAt(assocs, NoCategories, step, j);
      var categoryAssociation := assocs[j];
      var catalogContext := FindContext(contexts, categoryAssociation.catalogName);
      if catalogContext.None? {
        return Failure(CatalogContextMissing(categoryAssociation.catalogName));
      }
      if categoryAssociation.categoryName in catalogContext.value.categoriesByName {
        var category := catalogContext.value.categoriesByName[categoryAssociation.categoryName];
        itemsCategoryList := itemsCategoryList + [category.sitecoreId];
        edges := edges + [EdgeToEntity(item.id, n.catalogId(categoryAssociation.catalogName), ToParentRef(category))];
      } else {
        warnings := warnings + [CategoryNotFound(ProductIdText(item), categoryAssociation.categoryName)];
      }
      j := j + 1;
    }
    assert assocs[..j] == assocs;
    r := Success((item.(
      parentCategoryList := Text.JoinOrNull(itemsCategoryList),
      transient := Some(transientData.(toCreate := transientData.toCreate + edges))), warnings));
  }

  method TransformCategory(n: Naming, catalogContextList: seq<CatalogContext>, importItems: seq<SellableItem>)
    returns (r: Result<(seq<SellableItem>, seq<Warning>), ImportError>)
    ensures r == CategoryStage(n, importItems, catalogContextList)
  {
    var step := LogStep(CategoryFn(n, catalogContextList));
    var items: seq<SellableItem> := [];
    var log: seq<Warning> := [];
    var i := 0;
    while i < |importItems|
      invariant 0 <= i <= |importItems|
      invariant FoldSteps(importItems[..i], ([], []), step) == Success((items, log))
    {
      FoldAt(importItems, ([], []), step, i);
      var resolved :- ResolveItemCategories(n, catalogContextList, importItems[i]);
      items := items + [resolved.0];
      log := log + resolved.1;
      i := i + 1;
    }
    assert importItems[..i] == importItems;
    r := Success((items, log));
  }

  /** One association: it fails exactly on a missing context, and
      otherwise adds an id with its matching edge, or a warning. */
  lemma CategoryOneShape(n: Naming, itemId: string, subject: string, contexts: seq<CatalogContext>,
                         p: CategoryPass, a: CategoryAssociation)
    ensures var r := CategoryOne(n, itemId, subject, contexts, p, a);
      && (r.Success? <==> FindContext(contexts, a.catalogName).Some?)
      && (r.Success? && EdgesMatch(itemId, p) ==>
            EdgesMatch(itemId, r.value) && |r.value.categoryList| + |r.value.warnings| == |p.categoryList| + |p.warnings| + 1)
  {
  }

  /** The category pass for one item, stated without its loop: it fails
      exactly when some association's catalog has no context; otherwise
      every association yields either a category id with its edge or a
      warning, and each edge links the item to the category whose id sits
      at the same position. */
  lemma {:induction false} CategoryPassSpec(n: Naming, itemId: string, subject: string, contexts: seq<CatalogContext>, assocs: seq<CategoryAssociation>)
    ensures var r := FoldSteps(assocs, NoCategories, CategoryStep(n, itemId, subject, contexts));
      && (r.Success? <==> ContextsCover(contexts, assocs))
      && (r.Success? ==> EdgesMatch(itemId, r.value) && |r.value.categoryList| + |r.value.warnings| == |assocs|)
  {
    if |assocs| > 0 {
      var init, last := assocs[..|assocs| - 1], assocs[|assocs| - 1];
      CategoryPassSpec(n, itemId, subject, contexts, init);
      var prev := FoldSteps(init, NoCategories, CategoryStep(n, itemId, subject, contexts));
      if prev.Success? {
        CategoryOneShape(n, itemId, subject, contexts, prev.value, last);
      }
      ContextsCoverSnoc(contexts, assocs);
    }
  }

  /** Where this command looks a category up: in its catalog's context only. */
  function StoredCategory(contexts: seq<CatalogContext>): CategoryAssociation -> Option<Category> {
    (a: CategoryAssociation) =>
      match FindContext(contexts, a.catalogName)
      case None => None
      case Some(context) =>
        if a.categoryName in context.categoriesByName then Some(context.categoriesByName[a.categoryName]) else None
  }

  /** One association that succeeds adds the found category's id and edge,
      or else its warning. */
  lemma CategoryOneFound(n: Naming, itemId: string, subject: string, contexts: seq<CatalogContext>,
                         p: CategoryPass, a: CategoryAssociation)
    requires CategoryOne(n, itemId, subject, contexts, p, a).Success?
    ensures var lookup := StoredCategory(contexts);
      var found := CategoryFound(lookup)(a);
      CategoryOne(n, itemId, subject, contexts, p, a).value == CategoryPass(
        p.categoryList + (if found then [FoundId(lookup)(a)] else []),
        p.edges + (if found then [FoundEdge(n.catalogId, itemId, lookup)(a)] else []),
        p.warnings + (if found then [] else [MissingCategory(subject)(a)]))
  {
  }

  /** The category pass, stated without its loop: the ids and the edges
      are those of the associations whose category the context holds, in
      order, and the warnings those of the others. */
  lemma {:induction false} CategoryPassFilters(n: Naming, itemId: string, subject: string, contexts: seq<CatalogContext>,
                                               assocs: seq<CategoryAssociation>)
    ensures var r := FoldSteps(assocs, NoCategories, CategoryStep(n, itemId, subject, contexts));
      var lookup := StoredCategory(contexts);
      r.Success? ==>
        && r.value.categoryList == Linq.Select(Linq.Where(assocs, CategoryFound(lookup)), FoundId(lookup))
        && r.value.edges == Linq.Select(Linq.Where(assocs, CategoryFound(lookup)), FoundEdge(n.catalogId, itemId, lookup))
        && r.value.warnings == Linq.Select(Linq.Where(assocs, CategoryMissing(lookup)), MissingCategory(subject))
  {
    var step := CategoryStep(n, itemId, subject, contexts);
    var lookup := StoredCategory(contexts);
    if |assocs| > 0 && FoldSteps(assocs, NoCategories, step).Success? {
      var init, last := assocs[..|assocs| - 1], assocs[|assocs| - 1];
      FoldLast(assocs, NoCategories, step);
      CategoryPassFilters(n, itemId, subject, contexts, init);
      CategoryOneFound(n, itemId, subject, contexts, FoldSteps(init, NoCategories, step).value, last);
      Linq.SelectSnoc(Linq.Where(init, CategoryFound(lookup)), last, FoundId(lookup));
      Linq.SelectSnoc(Linq.Where(init, CategoryFound(lookup)), last, FoundEdge(n.catalogId, itemId, lookup));
      Linq.SelectSnoc(Linq.Where(init, CategoryMissing(lookup)), last, MissingCategory(subject));
    }
  }

  /** One item's category links: the pass fails exactly when some
      association's catalog has no context; otherwise ParentCategoryList
      joins the ids of the categories found, one edge to each is added to
      the edges to create, and each category not found is warned about. */
  lemma CategoryLinksOfItem(n: Naming, contexts: seq<CatalogContext>, item: SellableItem)
    ensures var r := ItemWithCategoryLinks(n, contexts, item);
      var data := SellableTransient(item);
      var assocs := data.categoryAssociations;
      var lookup := StoredCategory(contexts);
      && (r.Success? <==> ContextsCover(contexts, assocs))
      && (r.Success? ==>
            && r.value.0.parentCategoryList == Text.JoinOrNull(Linq.Select(Linq.Where(assocs, CategoryFound(lookup)), FoundId(lookup)))
            && SellableTransient(r.value.0).toCreate
                 == data.toCreate + Linq.Select(Linq.Where(assocs, CategoryFound(lookup)), FoundEdge(n.catalogId, item.id, lookup))
            && r.value.1 == Linq.Select(Linq.Where(assocs, CategoryMissing(lookup)), MissingCategory(ProductIdText(item))))
  {
    var assocs := SellableTransient(item).categoryAssociations;
    CategoryPassSpec(n, item.id, ProductIdText(item), contexts, assocs);
    CategoryPassFilters(n, item.id, ProductIdText(item), contexts, assocs);
  }

  // ---------------------------------------------------------------------
  // The passes together

  /** The fields no pass after `TransformCore` touches. */
  predicate SameCore(a: SellableItem, b: SellableItem) {
    && a.id == b.id && a.sitecoreId == b.sitecoreId && a.friendlyId == b.friendlyId
    && a.productId == b.productId && a.name == b.name && a.displayName == b.displayName
    && a.description == b.description && a.brand == b.brand && a.manufacturer == b.manufacturer
    && a.typeOfGood == b.typeOfGood && a.prices == b.prices && a.images == b.images
    && a.memberships == b.memberships
  }

  /** Every category association's catalog is among the catalog associations. */
  predicate CategoriesListed(data: TransientData) {
    forall i :: 0 <= i < |data.categoryAssociations| ==> data.categoryAssociations[i].catalogName in CatalogNames(data)
  }

  /** What the assignment pass leaves on a fresh draft: the core unchanged,
      at least one catalog association, none of them a parent association,
      every category's catalog among them, and no edges yet. */
  predicate AssignedFrom(draft: SellableItem, item: SellableItem) {
    var data := SellableTransient(item);
    && SameCore(draft, item)
    && item.parentCatalogList == draft.parentCatalogList
    && |data.catalogAssociations| > 0
    && (forall i :: 0 <= i < |data.catalogAssociations| ==> !data.catalogAssociations[i].isParent)
    && CategoriesListed(data)
    && data.toCreate == [] && data.toRemove == []
  }

  lemma ItemWithCategoriesShape(item: SellableItem, categoryRows: seq<Row>, assignmentRows: seq<Row>, defaultCatalog: string)
    requires item.transient.None?
    requires ItemWithCategories(item, categoryRows, assignmentRows, defaultCatalog).Success?
    ensures AssignedFrom(item, ItemWithCategories(item, categoryRows, assignmentRows, defaultCatalog).value)
  {
    var assignments := AssignmentsOf(item, assignmentRows);
    if |assignments| > 0 {
      AssignedGetsOnePerRecord(item, categoryRows, assignmentRows, defaultCatalog);
      var data := SellableTransient(ItemWithCategories(item, categoryRows, assignmentRows, defaultCatalog).value);
      assert data.categoryAssociations[0].catalogName in CatalogNames(data);
      forall i | 0 <= i < |data.categoryAssociations|
        ensures data.categoryAssociations[i].catalogName in CatalogNames(data)
      {
      }
    }
  }

  /** The assignment pass over fresh drafts keeps them one for one, in order. */
  lemma AssignedItemsShape(items: seq<SellableItem>, categoryRows: seq<Row>, assignmentRows: seq<Row>)
    requires |categoryRows| > 0
    requires forall k :: 0 <= k < |items| ==> items[k].transient.None?
    requires AssignedItems(items, categoryRows, assignmentRows).Success?
    ensures var r := AssignedItems(items, categoryRows, assignmentRows).value;
      |r| == |items| && forall k :: 0 <= k < |items| ==> AssignedFrom(items[k], r[k])
  {
    var defaultCatalog := categoryRows[0][CategoryCatalogNameColumn];
    var f := AssignFn(categoryRows, assignmentRows, defaultCatalog);
    MapStepsPointwise(items, [], f);
    forall k | 0 <= k < |items|
      ensures AssignedFrom(items[k], AssignedItems(items, categoryRows, assignmentRows).value[k])
    {
      ItemWithCategoriesShape(items[k], categoryRows, assignmentRows, defaultCatalog);
    }
  }

  /** The catalog pass over withAssignments items never stops the import, and,
      since the assignment pass makes no parent association, it adds no
      edge and leaves `ParentCatalogList` null. */
  lemma CatalogStageOnAssigned(drafts: seq<SellableItem>, items: seq<SellableItem>, catalogs: map<string, Catalog>)
    requires |drafts| == |items|
    requires forall k :: 0 <= k < |items| ==> AssignedFrom(drafts[k], items[k])
    ensures CatalogStage(items, catalogs).Success?
    ensures var r := CatalogStage(items, catalogs).value.0;
      && |r| == |items|
      && forall k :: 0 <= k < |items| ==>
           && SameCore(drafts[k], r[k])
           && r[k].parentCatalogList.None?
           && SellableTransient(r[k]).categoryAssociations == SellableTransient(items[k]).categoryAssociations
           && SellableTransient(r[k]).catalogAssociations == SellableTransient(items[k]).catalogAssociations
           && SellableTransient(r[k]).toCreate == []
  {
    var f := CatalogFn(catalogs);
    LogStepsSucceed(items, f);
    LogStepsPointwise(items, f);
    forall k | 0 <= k < |items|
      ensures var item := CatalogStage(items, catalogs).value.0[k];
        && SameCore(drafts[k], item) && item.parentCatalogList.None?
        && SellableTransient(item).toCreate == []
    {
      var assocs := SellableTransient(items[k]).catalogAssociations;
      ResolveCatalogsFilters(items[k].id, ProductIdText(items[k]), assocs, catalogs);
      Linq.WhereNone(assocs, ParentResolvable(catalogs));
    }
  }

  /** The catalog names the category pass asks contexts for. */
  function CatalogNamesFn(): SellableItem -> seq<string> {
    (item: SellableItem) => CatalogNames(SellableTransient(item))
  }

  /** The whole command: the drafts of the product records with their
      associations resolved, and the warnings logged along the way. */
  function Transform(n: Naming, rows: seq<Row>, categoryRows: seq<Row>, assignmentRows: seq<Row>,
                     catalogs: map<string, Catalog>, contextsFor: seq<string> -> seq<CatalogContext>)
    : Result<(seq<SellableItem>, seq<Warning>), ImportError>
    requires |categoryRows| > 0
  {
    var drafts :- CoreDrafts(n, rows);
    var withAssignments :- AssignedItems(drafts, categoryRows, assignmentRows);
    var withCatalogs :- CatalogStage(withAssignments, catalogs);
    var names := Linq.Distinct(Linq.SelectMany(withAssignments, CatalogNamesFn()));
    var resolved :- CategoryStage(n, withCatalogs.0, contextsFor(names));
    Success((resolved.0, withCatalogs.1 + resolved.1))
  }

  /** Every draft is fresh: no transient data yet. */
  lemma {:induction false} CoreDraftsFresh(n: Naming, rows: seq<Row>)
    requires CoreDrafts(n, rows).Success?
    ensures forall k :: 0 <= k < |CoreDrafts(n, rows).value| ==> CoreDrafts(n, rows).value[k].transient.None?
  {
    if |rows| > 0 {
      var init := rows[..|rows| - 1];
      FoldLast(rows, [], CoreStep(n));
      CoreDraftsFresh(n, init);
      CoreStepCases(n, CoreDrafts(n, init).value, rows[|rows| - 1]);
    }
  }

  predicate NotNoCatalog(e: ImportError) {
    !e.NoCatalog?
  }

  function NotNoCatalogFn(): ImportError -> bool {
    (e: ImportError) => NotNoCatalog(e)
  }

  /** The draft and assignment passes fail only on their records. */
  lemma EarlyFailures(n: Naming, rows: seq<Row>, items: seq<SellableItem>, categoryRows: seq<Row>, assignmentRows: seq<Row>)
    requires |categoryRows| > 0
    ensures CoreDrafts(n, rows).Failure? ==> NotNoCatalog(CoreDrafts(n, rows).error)
    ensures AssignedItems(items, categoryRows, assignmentRows).Failure? ==>
              NotNoCatalog(AssignedItems(items, categoryRows, assignmentRows).error)
  {
    FoldErrors(rows, [], CoreStep(n), NotNoCatalogFn());
    forall item, defaultCatalog
      ensures ItemWithCategories(item, categoryRows, assignmentRows, defaultCatalog).Failure? ==>
                NotNoCatalog(ItemWithCategories(item, categoryRows, assignmentRows, defaultCatalog).error)
    {
      FoldErrors(AssignmentsOf(item, assignmentRows), SellableTransient(item).categoryAssociations,
                 MapStep(AssociationFn(ProductIdText(item), categoryRows)), NotNoCatalogFn());
    }
    if CategoryCatalogNameColumn in categoryRows[0] {
      FoldErrors(items, [], MapStep(AssignFn(categoryRows, assignmentRows, categoryRows[0][CategoryCatalogNameColumn])), NotNoCatalogFn());
    }
  }

  /** The command never fails for want of a catalog: every item reaching the
      catalog pass has at least one catalog association. */
  lemma TransformNeverNoCatalog(n: Naming, rows: seq<Row>, categoryRows: seq<Row>, assignmentRows: seq<Row>,
                                catalogs: map<string, Catalog>, contextsFor: seq<string> -> seq<CatalogContext>)
    requires |categoryRows| > 0
    ensures Transform(n, rows, categoryRows, assignmentRows, catalogs, contextsFor).Failure? ==>
              NotNoCatalog(Transform(n, rows, categoryRows, assignmentRows, catalogs, contextsFor).error)
  {
    if CoreDrafts(n, rows).Success? {
      var drafts := CoreDrafts(n, rows).value;
      EarlyFailures(n, rows, drafts, categoryRows, assignmentRows);
      if AssignedItems(drafts, categoryRows, assignmentRows).Success? {
        var withAssignments := AssignedItems(drafts, categoryRows, assignmentRows).value;
        CoreDraftsFresh(n, rows);
        AssignedItemsShape(drafts, categoryRows, assignmentRows);
        CatalogStageOnAssigned(drafts, withAssignments, catalogs);
        var withCatalogs := CatalogStage(withAssignments, catalogs).value.0;
        var names := Linq.Distinct(Linq.SelectMany(withAssignments, CatalogNamesFn()));
        forall s, x
          ensures LogStep(CategoryFn(n, contextsFor(names)))(s, x).Failure? ==>
                    NotNoCatalog(LogStep(CategoryFn(n, contextsFor(names)))(s, x).error)
        {
          FoldErrors(SellableTransient(x).categoryAssociations, NoCategories,
                     CategoryStep(n, x.id, ProductIdText(x), contextsFor(names)), NotNoCatalogFn());
        }
        FoldErrors(withCatalogs, ([], []), LogStep(CategoryFn(n, contextsFor(names))), NotNoCatalogFn());
      }
    } else {
      EarlyFailures(n, rows, [], categoryRows, assignmentRows);
    }
  }

  /** When the context command answers every name, the "catalog not found"
      failure of the category pass cannot happen: the command then succeeds
      exactly when the draft and the assignment passes do. */
  lemma TransformSucceeds(n: Naming, rows: seq<Row>, categoryRows: seq<Row>, assignmentRows: seq<Row>,
                          catalogs: map<string, Catalog>, contextsFor: seq<string> -> seq<CatalogContext>)
    requires |categoryRows| > 0
    requires AnswersAll(contextsFor)
    ensures Transform(n, rows, categoryRows, assignmentRows, catalogs, contextsFor).Success? <==>
            CoreDrafts(n, rows).Success? && AssignedItems(CoreDrafts(n, rows).value, categoryRows, assignmentRows).Success?
  {
    if CoreDrafts(n, rows).Success? && AssignedItems(CoreDrafts(n, rows).value, categoryRows, assignmentRows).Success? {
      var drafts := CoreDrafts(n, rows).value;
      var withAssignments := AssignedItems(drafts, categoryRows, assignmentRows).value;
      CoreDraftsFresh(n, rows);
      AssignedItemsShape(drafts, categoryRows, assignmentRows);
      CatalogStageOnAssigned(drafts, withAssignments, catalogs);
      var withCatalogs := CatalogStage(withAssignments, catalogs).value.0;
      var names := Linq.Distinct(Linq.SelectMany(withAssignments, CatalogNamesFn()));
      var contexts := contextsFor(names);
      forall k | 0 <= k < |withCatalogs|
        ensures CategoryFn(n, contexts)(withCatalogs[k]).Success?
      {
        var assocs := SellableTransient(withCatalogs[k]).categoryAssociations;
        forall i | 0 <= i < |assocs|
          ensures FindContext(contexts, assocs[i].catalogName).Some?
        {
          var name := assocs[i].catalogName;
          assert name in CatalogNamesFn()(withAssignments[k]);
          Linq.SelectManyMembers(withAssignments, CatalogNamesFn(), name);
        }
        CategoryPassSpec(n, withCatalogs[k].id, ProductIdText(withCatalogs[k]), contexts, assocs);
      }
      LogStepsSucceed(withCatalogs, CategoryFn(n, contexts));
    }
  }

  /** What the command returns: one item per draft, in draft order, ids
      distinct, core fields as `TransformCore` set them, and no parent
      catalog, since no association the command makes is a parent one. */
  lemma {:induction false} CategoryStageKeeps(n: Naming, items: seq<SellableItem>, contexts: seq<CatalogContext>)
    requires CategoryStage(n, items, contexts).Success?
    ensures var r := CategoryStage(n, items, contexts).value.0;
      |r| == |items| && forall k :: 0 <= k < |items| ==> SameCore(items[k], r[k]) && r[k].parentCatalogList == items[k].parentCatalogList
  {
    LogStepsPointwise(items, CategoryFn(n, contexts));
  }

  lemma TransformResult(n: Naming, rows: seq<Row>, categoryRows: seq<Row>, assignmentRows: seq<Row>,
                        catalogs: map<string, Catalog>, contextsFor: seq<string> -> seq<CatalogContext>)
    requires |categoryRows| > 0
    requires Transform(n, rows, categoryRows, assignmentRows, catalogs, contextsFor).Success?
    ensures var drafts := CoreDrafts(n, rows).value;
      var r := Transform(n, rows, categoryRows, assignmentRows, catalogs, contextsFor).value.0;
      && |r| == |drafts|
      && DistinctIds(r)
      && forall k :: 0 <= k < |r| ==> SameCore(drafts[k], r[k]) && r[k].parentCatalogList.None?
  {
    var drafts := CoreDrafts(n, rows).value;
    var withAssignments := AssignedItems(drafts, categoryRows, assignmentRows).value;
    CoreDraftsFresh(n, rows);
    CoreDraftsDistinct(n, rows);
    AssignedItemsShape(drafts, categoryRows, assignmentRows);
    CatalogStageOnAssigned(drafts, withAssignments, catalogs);
    var withCatalogs := CatalogStage(withAssignments, catalogs).value.0;
    var names := Linq.Distinct(Linq.SelectMany(withAssignments, CatalogNamesFn()));
    CategoryStageKeeps(n, withCatalogs, contextsFor(names));
  }

  /** `TransformCore`: the record's draft, unless one with its id exists. */
  method TransformCore(n: Naming, rawLine: Row, importItems: seq<SellableItem>) returns (r: Result<seq<SellableItem>, ImportError>)
    ensures r == CoreRow(n, importItems, rawLine)
  {
    var productId :- Column(rawLine, ProductIdColumn);
    var id := n.sellableItemId(productId);
    if HasDraft(importItems, id) {
      return Success(importItems);
    }
    var item :- DraftFromRow(n, rawLine);
    r := Success(importItems + [item]);
  }

  /** `Process`: the drafts, then the three passes over them. The catalogs
      in storage and the context command are given; the warnings come back
      with the items. */
  method Process(n: Naming, importRawLines: seq<Row>, categoryRows: seq<Row>, assignmentRows: seq<Row>,
                 allCatalogs: map<string, Catalog>, contextsFor: seq<string> -> seq<CatalogContext>)
    returns (r: Result<(seq<SellableItem>, seq<Warning>), ImportError>)
    requires |categoryRows| > 0
    ensures r == Transform(n, importRawLines, categoryRows, assignmentRows, allCatalogs, contextsFor)
  {
    var importItems: seq<SellableItem> := [];
    var i := 0;
    while i < |importRawLines|
      invariant 0 <= i <= |importRawLines|
      invariant FoldSteps(importRawLines[..i], [], CoreStep(n)) == Success(importItems)
    {
      FoldAt(importRawLines, [], CoreStep(n), i);
      importItems :- TransformCore(n, importRawLines[i], importItems);
      i := i + 1;
    }
    assert importRawLines[..i] == importRawLines;
    var withAssignments :- TransformD365Category(importItems, categoryRows, assignmentRows);
    var withCatalogs :- TransformCatalog(withAssignments, allCatalogs);
    var catalogNameList := Linq.Distinct(Linq.SelectMany(withAssignments, CatalogNamesFn()));
    var resolved :- TransformCategory(n, contextsFor(catalogNameList), withCatalogs.0);
    r := Success((resolved.0, withCatalogs.1 + resolved.1));
  }
}
