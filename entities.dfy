/** The entities the import builds and compares. A draft is a value here;
    the engine's per-entity policy and component bags become plain fields.
    A field the comparer treats as nullable is an `Option`. */
module Entities {
  import opened Wrappers
  import opened Host
  import opened Associations
  import Linq

  /** `CategoryAssociationModel`: a category, by catalog name and category name. */
  datatype CategoryAssociation = CategoryAssociation(catalogName: string, categoryName: string)

  /** `CatalogAssociationModel`: a catalog by name, and whether the item sits
      directly under it. */
  datatype CatalogAssociation = CatalogAssociation(name: string, isParent: bool)

  /** The transient import policy: the scratch data a draft carries until it is stripped. */
  datatype TransientData = TransientData(
    categoryAssociations: seq<CategoryAssociation>,
    catalogAssociations: seq<CatalogAssociation>,
    toCreate: seq<ParentEdge>,
    toRemove: seq<ParentEdge>)

  const EmptyTransient: TransientData := TransientData([], [], [], [])

  /** A sellable item. `prices` is the list of its `ListPricingPolicy` and
      `images` that of its `ImagesComponent`; both are fetched with
      get-or-create, so only the lists can be null. */
  datatype SellableItem = SellableItem(
    id: string,
    sitecoreId: string,
    friendlyId: string,
    productId: Option<string>,
    name: Option<string>,
    displayName: Option<string>,
    description: Option<string>,
    brand: Option<string>,
    manufacturer: Option<string>,
    typeOfGood: Option<string>,
    catalogToEntityList: Option<string>,
    parentCatalogList: Option<string>,
    parentCategoryList: Option<string>,
    prices: Option<seq<Money>>,
    images: Option<seq<string>>,
    memberships: seq<string>,
    catalogComponents: seq<string>,
    transient: Option<TransientData>)

  /** A category. */
  datatype Category = Category(
    id: string,
    sitecoreId: string,
    friendlyId: string,
    name: string,
    displayName: string,
    catalogToEntityList: Option<string>,
    parentCatalogList: Option<string>,
    parentCategoryList: Option<string>,
    memberships: seq<string>,
    transient: Option<TransientData>)

  /** `CatalogContextModel`: per catalog name, the catalog and its stored
      categories by name and by Sitecore id. */
  datatype CatalogContext = CatalogContext(
    catalogName: string,
    catalog: Option<Catalog>,
    categoriesByName: map<string, Category>,
    categoriesBySitecoreId: map<string, Category>)

  /** `GetPolicy<Transient…DataPolicy>()`: the item's scratch data, a fresh
      empty one when it has none yet. */
  function SellableTransient(item: SellableItem): TransientData {
    item.transient.GetOr(EmptyTransient)
  }

  function CategoryTransient(item: Category): TransientData {
    item.transient.GetOr(EmptyTransient)
  }

  function CatalogNames(data: TransientData): seq<string> {
    seq(|data.catalogAssociations|, i requires 0 <= i < |data.catalogAssociations| => data.catalogAssociations[i].name)
  }

  function ToParentRef(c: Category): ParentRef {
    ParentRef(c.id, c.sitecoreId)
  }

  function CatalogRef(c: Catalog): ParentRef {
    ParentRef(c.id, c.sitecoreId)
  }

  // ---------------------------------------------------------------------
  // Category resolution, shared by both transforms

  /** `FirstOrDefault` over the catalog contexts, by exact catalog name. */
  function FindContext(contexts: seq<CatalogContext>, catalogName: string): (r: Option<CatalogContext>)
    ensures r.Some? ==> r.value in contexts && r.value.catalogName == catalogName
    ensures r.Some? ==> exists k :: 0 <= k < |contexts| && contexts[k] == r.value
                          && forall j :: 0 <= j < k ==> contexts[j].catalogName != catalogName
    ensures r.None? <==> forall c :: c in contexts ==> c.catalogName != catalogName
  {
    Linq.FirstWhere(contexts, (c: CatalogContext) => c.catalogName == catalogName)
  }

  /** `GetCatalogContextCommand` answers every name it is asked about. */
  ghost predicate AnswersAll(contextsFor: seq<string> -> seq<CatalogContext>) {
    forall names: seq<string>, name: string :: name in names ==> FindContext(contextsFor(names), name).Some?
  }

  /** Every association's catalog has a context. */
  predicate ContextsCover(contexts: seq<CatalogContext>, assocs: seq<CategoryAssociation>) {
    forall i :: 0 <= i < |assocs| ==> FindContext(contexts, assocs[i].catalogName).Some?
  }

  lemma ContextsCoverSnoc(contexts: seq<CatalogContext>, assocs: seq<CategoryAssociation>)
    requires |assocs| > 0
    ensures ContextsCover(contexts, assocs) <==>
            ContextsCover(contexts, assocs[..|assocs| - 1]) && FindContext(contexts, assocs[|assocs| - 1].catalogName).Some?
  {
    assert forall i :: 0 <= i < |assocs| - 1 ==> assocs[..|assocs| - 1][i] == assocs[i];
  }

  /** What resolving one entity's category associations produces: the
      Sitecore ids of the categories found, an edge to each, and a warning
      per category not found. */
  datatype CategoryPass = CategoryPass(categoryList: seq<string>, edges: seq<ParentEdge>, warnings: seq<Warning>)

  const NoCategories: CategoryPass := CategoryPass([], [], [])

  /** Each edge links the entity to the category whose id sits at the same position. */
  predicate EdgesMatch(itemId: string, p: CategoryPass) {
    && |p.edges| == |p.categoryList|
    && forall k :: 0 <= k < |p.edges| ==>
         p.edges[k].ItemId() == Some(itemId) && p.edges[k].parentSitecoreId == Some(p.categoryList[k])
  }

  // ---------------------------------------------------------------------
  // Catalog resolution, shared by both transforms: the filters and
  // projections that describe a resolution pass without its loop

  function Resolvable(catalogs: map<string, Catalog>): CatalogAssociation -> bool {
    (a: CatalogAssociation) => a.name in catalogs
  }

  function ParentResolvable(catalogs: map<string, Catalog>): CatalogAssociation -> bool {
    (a: CatalogAssociation) => a.name in catalogs && a.isParent
  }

  function Unresolvable(catalogs: map<string, Catalog>): CatalogAssociation -> bool {
    (a: CatalogAssociation) => a.name !in catalogs
  }

  /** The Sitecore id of an association's catalog (applied only to associations that resolve). */
  function SitecoreIdOf(catalogs: map<string, Catalog>): CatalogAssociation -> string {
    (a: CatalogAssociation) => if a.name in catalogs then catalogs[a.name].sitecoreId else ""
  }

  function NameOf(): CatalogAssociation -> string {
    (a: CatalogAssociation) => a.name
  }

  function MissingCatalog(subject: string): CatalogAssociation -> Warning {
    (a: CatalogAssociation) => CatalogNotFound(subject, a.name)
  }

  // ---------------------------------------------------------------------
  // Category resolution, likewise: each transform looks a category up its
  // own way, given here as `lookup`

  function CategoryFound(lookup: CategoryAssociation -> Option<Category>): CategoryAssociation -> bool {
    (a: CategoryAssociation) => lookup(a).Some?
  }

  function CategoryMissing(lookup: CategoryAssociation -> Option<Category>): CategoryAssociation -> bool {
    (a: CategoryAssociation) => lookup(a).None?
  }

  /** The Sitecore id of the category found (applied only to associations found). */
  function FoundId(lookup: CategoryAssociation -> Option<Category>): CategoryAssociation -> string {
    (a: CategoryAssociation) => if lookup(a).Some? then lookup(a).value.sitecoreId else ""
  }

  /** The edge from the entity to the category found, under the association's catalog. */
  function FoundEdge(catalogId: string -> string, itemId: string, lookup: CategoryAssociation -> Option<Category>)
    : CategoryAssociation -> ParentEdge
  {
    (a: CategoryAssociation) =>
      if lookup(a).Some? then EdgeToEntity(itemId, catalogId(a.catalogName), ToParentRef(lookup(a).value)) else NewEdge()
  }

  function MissingCategory(subject: string): CategoryAssociation -> Warning {
    (a: CategoryAssociation) => CategoryNotFound(subject, a.categoryName)
  }
}
