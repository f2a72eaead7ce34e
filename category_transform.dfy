/** `TransformImportToCategoryCommand`: ERP category records become category
    drafts. A record names a category (its record id) in a catalog, with
    its display name and its parent category. One pass over the records
    builds the drafts and their parent associations; then parent catalogs
    are flagged, catalogs resolved and categories resolved, each pass a
    method with the loops of the source, proved equal to a function that
    later lemmas reason about. */
module CategoryTransform {
  import opened Wrappers
  import opened Host
  import opened Associations
  import opened Entities
  import opened Folds
  import Linq
  import Text

  // Columns of a category record.
  const CatalogNameColumn: string := "EcoResCategoryHierarchy_Name"
  const CategoryNameColumn: string := "AxRecId"
  const ParentCategoryColumn: string := "ParentCategory"
  const CategoryDisplayNameColumn: string := "Name"

  /** The parent category the ERP writes for a category with no parent. */
  const NoParent: string := "0"

  // ---------------------------------------------------------------------
  // TransformCore and TransformParentAssociations, record by record

  /** The draft built from a record whose id has no draft yet. */
  function DraftFromRow(n: Naming, row: Row): (r: Result<Category, ImportError>)
    ensures r.Success? <==> CatalogNameColumn in row && CategoryNameColumn in row && CategoryDisplayNameColumn in row
    ensures r.Success? ==>
      && r.value.name == row[CategoryNameColumn]
      && r.value.id == n.categoryId(row[CategoryNameColumn], row[CatalogNameColumn])
      && r.value.friendlyId == n.categoryFriendlyId(row[CategoryNameColumn], row[CatalogNameColumn])
      && r.value.sitecoreId == n.deterministicGuid(r.value.id)
      && r.value.displayName == row[CategoryDisplayNameColumn]
      && r.value.memberships == [n.categoriesList, n.catalogItemsList]
      && r.value.catalogToEntityList.None? && r.value.parentCatalogList.None? && r.value.parentCategoryList.None?
      && r.value.transient.None?
  {
    var catalogName :- Column(row, CatalogNameColumn);
    var name :- Column(row, CategoryNameColumn);
    var id := n.categoryId(name, catalogName);
    var displayName :- Column(row, CategoryDisplayNameColumn);
    Success(Category(id, n.deterministicGuid(id), n.categoryFriendlyId(name, catalogName), name, displayName,
                     None, None, None, [n.categoriesList, n.catalogItemsList], None))
  }

  /** The draft id a record maps to: its category in its catalog. */
  function RowId(n: Naming, row: Row): Result<string, ImportError> {
    var catalogName :- Column(row, CatalogNameColumn);
    var name :- Column(row, CategoryNameColumn);
    Success(n.categoryId(name, catalogName))
  }

  predicate HasDraft(drafts: seq<Category>, id: string) {
    exists k :: 0 <= k < |drafts| && drafts[k].id == id
  }

  /** `FirstOrDefault` by id: the position of the first draft with `id`,
      or the number of drafts when there is none. */
  function IndexOfId(drafts: seq<Category>, id: string): (k: nat)
    ensures k <= |drafts|
    ensures k < |drafts| ==> drafts[k].id == id
    ensures forall j :: 0 <= j < k ==> drafts[j].id != id
    ensures k == |drafts| <==> !HasDraft(drafts, id)
  {
    Linq.FirstIndex(drafts, (d: Category) => d.id == id)
  }

  /** `TransformCore` for one record: the drafts, now holding the record's
      draft, and where that draft is. */
  function CoreRow(n: Naming, drafts: seq<Category>, row: Row): (r: Result<(seq<Category>, nat), ImportError>)
    ensures r.Success? <==> RowId(n, row).Success? && (HasDraft(drafts, RowId(n, row).value) || DraftFromRow(n, row).Success?)
    ensures r.Success? ==>
      && r.value.1 < |r.value.0| && r.value.0[r.value.1].id == RowId(n, row).value
      && |drafts| <= |r.value.0| <= |drafts| + 1 && r.value.0[..|drafts|] == drafts
    ensures r.Success? && HasDraft(drafts, RowId(n, row).value) ==> r.value.0 == drafts
    ensures r.Success? && !HasDraft(drafts, RowId(n, row).value) ==> r.value.0 == drafts + [DraftFromRow(n, row).value]
  {
    var id :- RowId(n, row);
    var k := IndexOfId(drafts, id);
    if k < |drafts| then Success((drafts, k))
    else
      var draft :- DraftFromRow(n, row);
      Success((drafts + [draft], k))
  }

  /** `TransformParentAssociations` for one record: a parent category other
      than "0" becomes a category association and an edge to that category,
      unless the draft has that association already; the record's catalog
      becomes a catalog association unless the draft has one already. */
  function WithParentAssociations(n: Naming, item: Category, row: Row): Result<Category, ImportError> {
    var catalogName :- Column(row, CatalogNameColumn);
    var parentCategoryName :- Column(row, ParentCategoryColumn);
    var data := CategoryTransient(item);
    var pair := CategoryAssociation(catalogName, parentCategoryName);
    var withParent :=
      if parentCategoryName != NoParent && pair !in data.categoryAssociations then
        data.(toCreate := data.toCreate + [CategoryEdge(n, item.id, pair)],
              categoryAssociations := data.categoryAssociations + [pair])
      else data;
    var withCatalog :=
      if catalogName in CatalogNames(withParent) then withParent
      else withParent.(catalogAssociations := withParent.catalogAssociations + [CatalogAssociation(catalogName, false)]);
    Success(item.(transient := Some(withCatalog)))
  }

  /** The edge from a category to the parent category an association names. */
  function CategoryEdge(n: Naming, itemId: string, a: CategoryAssociation): ParentEdge {
    EdgeToId(itemId, n.catalogId(a.catalogName), n.categoryId(a.categoryName, a.catalogName))
  }

  /** One record: `TransformCore`, then `TransformParentAssociations` on the draft it returned. */
  function RowStep(n: Naming, drafts: seq<Category>, row: Row): Result<seq<Category>, ImportError> {
    var id :- RowId(n, row);
    var k := IndexOfId(drafts, id);
    if k < |drafts| then
      var item :- WithParentAssociations(n, drafts[k], row);
      Success(drafts[k := item])
    else
      var draft :- DraftFromRow(n, row);
      var item :- WithParentAssociations(n, draft, row);
      Success(drafts + [item])
  }

  function RowStepFn(n: Naming): (seq<Category>, Row) -> Result<seq<Category>, ImportError> {
    (drafts: seq<Category>, row: Row) => RowStep(n, drafts, row)
  }

  function CategoryDrafts(n: Naming, rows: seq<Row>): Result<seq<Category>, ImportError> {
    FoldSteps(rows, [], RowStepFn(n))
  }

  // ---------------------------------------------------------------------
  // What the record pass builds, stated per draft

  predicate DistinctIds(items: seq<Category>) {
    forall k, l :: 0 <= k < l < |items| ==> items[k].id != items[l].id
  }

  predicate RowHasDraft(n: Naming, row: Row, drafts: seq<Category>) {
    RowId(n, row).Success? && HasDraft(drafts, RowId(n, row).value)
  }

  /** Record `j` is the first record that maps to `id`. */
  predicate FirstWithId(n: Naming, rows: seq<Row>, j: nat, id: string)
    requires j < |rows|
  {
    RowId(n, rows[j]) == Success(id) && forall i :: 0 <= i < j ==> RowId(n, rows[i]) != Success(id)
  }

  /** Draft `d` was built from record `o`, the first record with its id. */
  predicate BuiltFrom(n: Naming, rows: seq<Row>, d: Category, o: nat) {
    o < |rows| && FirstWithId(n, rows, o, d.id) && DraftFromRow(n, rows[o]) == Success(d.(transient := None))
  }

  /** The record maps to draft `id` and names parent category `a` in its catalog. */
  predicate RowParent(n: Naming, row: Row, id: string, a: CategoryAssociation) {
    && CatalogNameColumn in row && CategoryNameColumn in row && ParentCategoryColumn in row
    && n.categoryId(row[CategoryNameColumn], row[CatalogNameColumn]) == id
    && row[ParentCategoryColumn] != NoParent
    && a == CategoryAssociation(row[CatalogNameColumn], row[ParentCategoryColumn])
  }

  /** The record maps to draft `id` and lies in catalog `c`. */
  predicate RowCatalog(n: Naming, row: Row, id: string, c: string) {
    && CatalogNameColumn in row && CategoryNameColumn in row
    && n.categoryId(row[CategoryNameColumn], row[CatalogNameColumn]) == id
    && c == row[CatalogNameColumn]
  }

  ghost predicate ParentInRows(n: Naming, rows: seq<Row>, id: string, a: CategoryAssociation) {
    exists j :: 0 <= j < |rows| && RowParent(n, rows[j], id, a)
  }

  ghost predicate CatalogInRows(n: Naming, rows: seq<Row>, id: string, c: string) {
    exists j :: 0 <= j < |rows| && RowCatalog(n, rows[j], id, c)
  }

  /** The scratch data of draft `d` after the records `rows`: each
      (catalog, parent category) pair of its records other than "0" exactly
      once, with the edge to that parent at the same position; each catalog
      of its records exactly once, none flagged as parent yet; no edge to
      remove. */
  ghost predicate Associated(n: Naming, rows: seq<Row>, d: Category) {
    var data := CategoryTransient(d);
    && Linq.NoDuplicates(data.categoryAssociations)
    && (forall a :: a in data.categoryAssociations <==> ParentInRows(n, rows, d.id, a))
    && |data.toCreate| == |data.categoryAssociations|
    && (forall i :: 0 <= i < |data.toCreate| ==> data.toCreate[i] == CategoryEdge(n, d.id, data.categoryAssociations[i]))
    && Linq.NoDuplicates(CatalogNames(data))
    && (forall c :: c in CatalogNames(data) <==> CatalogInRows(n, rows, d.id, c))
    && (forall i :: 0 <= i < |data.catalogAssociations| ==> !data.catalogAssociations[i].isParent)
    && data.toRemove == []
  }

  /** Draft `k` was built from record `origin[k]`. */
  predicate Origins(n: Naming, rows: seq<Row>, drafts: seq<Category>, origin: seq<nat>) {
    |origin| == |drafts| && forall k :: 0 <= k < |drafts| ==> BuiltFrom(n, rows, drafts[k], origin[k])
  }

  ghost predicate AllAssociated(n: Naming, rows: seq<Row>, drafts: seq<Category>) {
    forall k :: 0 <= k < |drafts| ==> Associated(n, rows, drafts[k])
  }

  predicate Covers(n: Naming, rows: seq<Row>, drafts: seq<Category>) {
    forall j :: 0 <= j < |rows| ==> RowHasDraft(n, rows[j], drafts)
  }

  /** The drafts after the records `rows`: one per id, every record's id
      among them, each built from the first record with its id and carrying
      the associations of all its records. */
  ghost predicate DraftsFrom(n: Naming, rows: seq<Row>, drafts: seq<Category>, origin: seq<nat>) {
    DistinctIds(drafts) && Covers(n, rows, drafts) && Origins(n, rows, drafts, origin) && AllAssociated(n, rows, drafts)
  }

  lemma ParentInRowsSnoc(n: Naming, rows: seq<Row>, row: Row, id: string, a: CategoryAssociation)
    ensures ParentInRows(n, rows + [row], id, a) <==> ParentInRows(n, rows, id, a) || RowParent(n, row, id, a)
  {
    var rows' := rows + [row];
    if ParentInRows(n, rows', id, a) {
      var j :| 0 <= j < |rows'| && RowParent(n, rows'[j], id, a);
      if j < |rows| { assert rows'[j] == rows[j]; }
    }
    if ParentInRows(n, rows, id, a) {
      var j :| 0 <= j < |rows| && RowParent(n, rows[j], id, a);
      assert rows'[j] == rows[j];
    }
    assert rows'[|rows|] == row;
  }

  lemma CatalogInRowsSnoc(n: Naming, rows: seq<Row>, row: Row, id: string, c: string)
    ensures CatalogInRows(n, rows + [row], id, c) <==> CatalogInRows(n, rows, id, c) || RowCatalog(n, row, id, c)
  {
    var rows' := rows + [row];
    if CatalogInRows(n, rows', id, c) {
      var j :| 0 <= j < |rows'| && RowCatalog(n, rows'[j], id, c);
      if j < |rows| { assert rows'[j] == rows[j]; }
    }
    if CatalogInRows(n, rows, id, c) {
      var j :| 0 <= j < |rows| && RowCatalog(n, rows[j], id, c);
      assert rows'[j] == rows[j];
    }
    assert rows'[|rows|] == row;
  }

  /** A record with another id leaves a draft's associations as they were. */
  lemma AssociatedOther(n: Naming, rows: seq<Row>, row: Row, d: Category)
    requires Associated(n, rows, d)
    requires RowId(n, row) != Success(d.id)
    ensures Associated(n, rows + [row], d)
  {
    forall a
      ensures ParentInRows(n, rows + [row], d.id, a) <==> ParentInRows(n, rows, d.id, a)
    {
      ParentInRowsSnoc(n, rows, row, d.id, a);
    }
    forall c
      ensures CatalogInRows(n, rows + [row], d.id, c) <==> CatalogInRows(n, rows, d.id, c)
    {
      CatalogInRowsSnoc(n, rows, row, d.id, c);
    }
  }

  /** A fresh draft no earlier record maps to has no associations to carry. */
  lemma AssociatedFresh(n: Naming, rows: seq<Row>, d: Category)
    requires d.transient.None?
    requires forall j :: 0 <= j < |rows| ==> RowId(n, rows[j]) != Success(d.id)
    ensures Associated(n, rows, d)
  {
    forall a
      ensures !ParentInRows(n, rows, d.id, a)
    {
      forall j | 0 <= j < |rows|
        ensures !RowParent(n, rows[j], d.id, a)
      {
      }
    }
    forall c
      ensures !CatalogInRows(n, rows, d.id, c)
    {
      forall j | 0 <= j < |rows|
        ensures !RowCatalog(n, rows[j], d.id, c)
      {
      }
    }
  }

  /** A record with the draft's id adds its parent pair and its catalog, each once. */
  lemma AssociatedStep(n: Naming, rows: seq<Row>, row: Row, d: Category)
    requires Associated(n, rows, d)
    requires RowId(n, row) == Success(d.id)
    requires WithParentAssociations(n, d, row).Success?
    ensures Associated(n, rows + [row], WithParentAssociations(n, d, row).value)
  {
    var d' := WithParentAssociations(n, d, row).value;
    var data, data' := CategoryTransient(d), CategoryTransient(d');
    var catalogName, parent := row[CatalogNameColumn], row[ParentCategoryColumn];
    var pair := CategoryAssociation(catalogName, parent);
    var added := parent != NoParent && pair !in data.categoryAssociations;
    ParentAssociationsShape(n, d, row);
    forall a
      ensures a in data'.categoryAssociations <==> ParentInRows(n, rows + [row], d.id, a)
    {
      ParentInRowsSnoc(n, rows, row, d.id, a);
    }
    forall c
      ensures c in CatalogNames(data') <==> CatalogInRows(n, rows + [row], d.id, c)
    {
      CatalogInRowsSnoc(n, rows, row, d.id, c);
    }
  }

  /** What one record adds to a draft's scratch data: the parent pair and
      its edge unless already there or absent, the catalog unless listed. */
  lemma ParentAssociationsShape(n: Naming, d: Category, row: Row)
    requires WithParentAssociations(n, d, row).Success?
    ensures var d' := WithParentAssociations(n, d, row).value;
      var data, data' := CategoryTransient(d), CategoryTransient(d');
      var catalogName, parent := row[CatalogNameColumn], row[ParentCategoryColumn];
      var pair := CategoryAssociation(catalogName, parent);
      var added := parent != NoParent && pair !in data.categoryAssociations;
      && d'.id == d.id
      && data'.categoryAssociations == data.categoryAssociations + (if added then [pair] else [])
      && data'.toCreate == data.toCreate + (if added then [CategoryEdge(n, d.id, pair)] else [])
      && data'.catalogAssociations == data.catalogAssociations
           + (if catalogName in CatalogNames(data) then [] else [CatalogAssociation(catalogName, false)])
      && CatalogNames(data') == CatalogNames(data) + (if catalogName in CatalogNames(data) then [] else [catalogName])
      && data'.toRemove == data.toRemove
  {
  }

  lemma BuiltFromExtends(n: Naming, rows: seq<Row>, row: Row, d: Category, d': Category, o: nat)
    requires BuiltFrom(n, rows, d, o)
    requires d'.(transient := None) == d.(transient := None)
    ensures BuiltFrom(n, rows + [row], d', o)
  {
    var rows' := rows + [row];
    assert forall i :: 0 <= i <= o ==> rows'[i] == rows[i];
  }

  /** One record: either the draft with its id gets new scratch data, or
      a draft built from it is appended with its scratch data. */
  lemma RowStepShape(n: Naming, drafts: seq<Category>, row: Row)
    requires RowStep(n, drafts, row).Success?
    ensures RowId(n, row).Success?
    ensures var id := RowId(n, row).value;
      var k := IndexOfId(drafts, id);
      var result := RowStep(n, drafts, row).value;
      if k < |drafts| then
        && WithParentAssociations(n, drafts[k], row).Success?
        && result == drafts[k := WithParentAssociations(n, drafts[k], row).value]
      else
        && DraftFromRow(n, row).Success?
        && WithParentAssociations(n, DraftFromRow(n, row).value, row).Success?
        && result == drafts + [WithParentAssociations(n, DraftFromRow(n, row).value, row).value]
  {
  }

  /** Scratch data never changes a draft's id or core fields. */
  lemma WithParentAssociationsKeeps(n: Naming, d: Category, row: Row)
    requires WithParentAssociations(n, d, row).Success?
    ensures WithParentAssociations(n, d, row).value.(transient := None) == d.(transient := None)
  {
  }

  lemma RowStepIds(n: Naming, rows: seq<Row>, drafts: seq<Category>, row: Row)
    requires DistinctIds(drafts) && Covers(n, rows, drafts)
    requires RowStep(n, drafts, row).Success?
    ensures DistinctIds(RowStep(n, drafts, row).value) && Covers(n, rows + [row], RowStep(n, drafts, row).value)
    ensures |RowStep(n, drafts, row).value| >= |drafts|
    ensures forall j :: 0 <= j < |drafts| ==>
              RowStep(n, drafts, row).value[j].(transient := None) == drafts[j].(transient := None)
  {
    RowStepShape(n, drafts, row);
    var id := RowId(n, row).value;
    var k := IndexOfId(drafts, id);
    var result := RowStep(n, drafts, row).value;
    if k < |drafts| {
      WithParentAssociationsKeeps(n, drafts[k], row);
    } else {
      WithParentAssociationsKeeps(n, DraftFromRow(n, row).value, row);
    }
    assert forall j :: 0 <= j < |drafts| ==> result[j].id == drafts[j].id;
    forall j | 0 <= j < |rows| + 1
      ensures RowHasDraft(n, (rows + [row])[j], result)
    {
      if j < |rows| {
        assert RowHasDraft(n, rows[j], drafts);
        var l :| 0 <= l < |drafts| && drafts[l].id == RowId(n, rows[j]).value;
        assert result[l].id == drafts[l].id;
      } else if k < |drafts| {
        assert result[k].id == id;
      } else {
        assert result[|drafts|].id == id;
      }
    }
  }

  /** The records the drafts were built from, after one more record. */
  lemma RowStepOrigins(n: Naming, rows: seq<Row>, drafts: seq<Category>, origin: seq<nat>, row: Row) returns (origin': seq<nat>)
    requires Covers(n, rows, drafts) && Origins(n, rows, drafts, origin)
    requires RowStep(n, drafts, row).Success?
    ensures Origins(n, rows + [row], RowStep(n, drafts, row).value, origin')
  {
    RowStepShape(n, drafts, row);
    var id := RowId(n, row).value;
    var k := IndexOfId(drafts, id);
    var result := RowStep(n, drafts, row).value;
    if k < |drafts| {
      origin' := origin;
      WithParentAssociationsKeeps(n, drafts[k], row);
    } else {
      origin' := origin + [|rows|];
      var draft := DraftFromRow(n, row).value;
      WithParentAssociationsKeeps(n, draft, row);
      forall i | 0 <= i < |rows|
        ensures RowId(n, rows[i]) != Success(id)
      {
        assert RowHasDraft(n, rows[i], drafts);
      }
      assert (rows + [row])[|rows|] == row;
      assert BuiltFrom(n, rows + [row], result[|drafts|], |rows|);
    }
    forall j | 0 <= j < |drafts|
      ensures BuiltFrom(n, rows + [row], result[j], origin'[j])
    {
      BuiltFromExtends(n, rows, row, drafts[j], result[j], origin[j]);
    }
  }

  lemma RowStepAssociations(n: Naming, rows: seq<Row>, drafts: seq<Category>, row: Row)
    requires DistinctIds(drafts) && Covers(n, rows, drafts) && AllAssociated(n, rows, drafts)
    requires RowStep(n, drafts, row).Success?
    ensures AllAssociated(n, rows + [row], RowStep(n, drafts, row).value)
  {
    RowStepShape(n, drafts, row);
    var id := RowId(n, row).value;
    var k := IndexOfId(drafts, id);
    var result := RowStep(n, drafts, row).value;
    forall j | 0 <= j < |result|
      ensures Associated(n, rows + [row], result[j])
    {
      if j < |drafts| && j != k {
        assert result[j] == drafts[j];
        AssociatedOther(n, rows, row, drafts[j]);
      } else if k < |drafts| {
        AssociatedStep(n, rows, row, drafts[k]);
      } else {
        var draft := DraftFromRow(n, row).value;
        forall i | 0 <= i < |rows|
          ensures RowId(n, rows[i]) != Success(id)
        {
          assert RowHasDraft(n, rows[i], drafts);
        }
        AssociatedFresh(n, rows, draft);
        AssociatedStep(n, rows, row, draft);
      }
    }
  }

  /** Records sharing a category and catalog merge into one draft, built
      from the first of them; each draft carries every (catalog, parent
      category) pair of its records other than "0" once, with its edge, and
      every catalog of its records once. */
  lemma {:induction false} CategoryDraftsSpec(n: Naming, rows: seq<Row>) returns (origin: seq<nat>)
    requires CategoryDrafts(n, rows).Success?
    ensures DraftsFrom(n, rows, CategoryDrafts(n, rows).value, origin)
  {
    if |rows| == 0 {
      origin := [];
    } else {
      var init, last := rows[..|rows| - 1], rows[|rows| - 1];
      assert rows == init + [last];
      FoldLast(rows, [], RowStepFn(n));
      var prev := CategoryDraftsSpec(n, init);
      var drafts := CategoryDrafts(n, init).value;
      RowStepIds(n, init, drafts, last);
      origin := RowStepOrigins(n, init, drafts, prev, last);
      RowStepAssociations(n, init, drafts, last);
    }
  }

  // ---------------------------------------------------------------------
  // TransformParentCatalogData: a catalog with no parent category in it
  // becomes a parent of the category

  /** `CategoryAssociationList.Any(a => a.CatalogName == name)`. */
  predicate HasCategoryIn(categories: seq<CategoryAssociation>, catalogName: string) {
    exists i :: 0 <= i < |categories| && categories[i].catalogName == catalogName
  }

  /** The edge from a category to a catalog it sits directly under. */
  function CatalogSelfEdge(n: Naming, itemId: string, catalogName: string): ParentEdge {
    EdgeToId(itemId, n.catalogId(catalogName), n.catalogId(catalogName))
  }

  /** The inner loop over one category's catalog associations: the
      associations with the parent flag set where no category association
      lies in that catalog, and the edges that adds. */
  function FlagParents(n: Naming, itemId: string, categories: seq<CategoryAssociation>, assocs: seq<CatalogAssociation>)
    : (seq<CatalogAssociation>, seq<ParentEdge>)
  {
    if |assocs| == 0 then ([], [])
    else
      var p := FlagParents(n, itemId, categories, assocs[..|assocs| - 1]);
      var a := assocs[|assocs| - 1];
      if !HasCategoryIn(categories, a.name) then
        (p.0 + [a.(isParent := true)], p.1 + [CatalogSelfEdge(n, itemId, a.name)])
      else (p.0 + [a], p.1)
  }

  function Orphan(categories: seq<CategoryAssociation>): CatalogAssociation -> bool {
    (a: CatalogAssociation) => !HasCategoryIn(categories, a.name)
  }

  function SelfEdgeFn(n: Naming, itemId: string): CatalogAssociation -> ParentEdge {
    (a: CatalogAssociation) => CatalogSelfEdge(n, itemId, a.name)
  }

  /** The flags and edges, stated without the loop: every association keeps
      its catalog and is a parent exactly when it was or no category
      association lies in its catalog; one edge per such orphan catalog, in
      order. */
  lemma {:induction false} FlagParentsSpec(n: Naming, itemId: string, categories: seq<CategoryAssociation>, assocs: seq<CatalogAssociation>)
    ensures var r := FlagParents(n, itemId, categories, assocs);
      && |r.0| == |assocs|
      && (forall i :: 0 <= i < |assocs| ==>
            r.0[i].name == assocs[i].name && (r.0[i].isParent <==> assocs[i].isParent || !HasCategoryIn(categories, assocs[i].name)))
      && r.1 == Linq.Select(Linq.Where(assocs, Orphan(categories)), SelfEdgeFn(n, itemId))
  {
    if |assocs| > 0 {
      var init, a := assocs[..|assocs| - 1], assocs[|assocs| - 1];
      FlagParentsSpec(n, itemId, categories, init);
      Linq.SelectSnoc(Linq.Where(init, Orphan(categories)), a, SelfEdgeFn(n, itemId));
      assert forall i :: 0 <= i < |init| ==> init[i] == assocs[i];
    }
  }

  function ItemWithParentCatalogs(n: Naming, item: Category): Category {
    var data := CategoryTransient(item);
    var flagged := FlagParents(n, item.id, data.categoryAssociations, data.catalogAssociations);
    item.(transient := Some(data.(catalogAssociations := flagged.0, toCreate := data.toCreate + flagged.1)))
  }

  function ParentCatalogFn(n: Naming): Category -> Category {
    (item: Category) => ItemWithParentCatalogs(n, item)
  }

  /** The whole pass: every category, flagged, in order. */
  function ParentCatalogStage(n: Naming, items: seq<Category>): seq<Category> {
    Linq.Select(items, ParentCatalogFn(n))
  }

  method TransformParentCatalogData(n: Naming, importItems: seq<Category>) returns (items: seq<Category>)
    ensures items == ParentCatalogStage(n, importItems)
  {
    items := [];
    var i := 0;
    while i < |importItems|
      invariant 0 <= i <= |importItems|
      invariant items == ParentCatalogStage(n, importItems[..i])
    {
      var item := importItems[i];
      var data := CategoryTransient(item);
      var catalogAssociations: seq<CatalogAssociation> := [];
      var toCreate := data.toCreate;
      var j := 0;
      assert data.toCreate + [] == data.toCreate;
      while j < |data.catalogAssociations|
        invariant 0 <= j <= |data.catalogAssociations|
        invariant catalogAssociations == FlagParents(n, item.id, data.categoryAssociations, data.catalogAssociations[..j]).0
        invariant toCreate == data.toCreate + FlagParents(n, item.id, data.categoryAssociations, data.catalogAssociations[..j]).1
      {
        assert data.catalogAssociations[..j + 1][..j] == data.catalogAssociations[..j];
        var catalogAssociation := data.catalogAssociations[j];
        if !HasCategoryIn(data.categoryAssociations, catalogAssociation.name) {
          toCreate := toCreate + [CatalogSelfEdge(n, item.id, catalogAssociation.name)];
          catalogAssociation := catalogAssociation.(isParent := true);
        }
        catalogAssociations := catalogAssociations + [catalogAssociation];
        j := j + 1;
      }
      assert data.catalogAssociations[..j] == data.catalogAssociations;
      Linq.SelectSnoc(importItems[..i], importItems[i], ParentCatalogFn(n));
      assert importItems[..i + 1] == importItems[..i] + [importItems[i]];
      items := items + [item.(transient := Some(data.(catalogAssociations := catalogAssociations, toCreate := toCreate)))];
      i := i + 1;
    }
    assert importItems[..i] == importItems;
  }

  // ---------------------------------------------------------------------
  // TransformCatalog: catalog associations and catalog parent edges become
  // catalog ids

  /** The first loop: the Sitecore id of every catalog found, a warning for every other. */
  function CatalogIds(subject: string, assocs: seq<CatalogAssociation>, catalogs: map<string, Catalog>)
    : (seq<string>, seq<Warning>)
  {
    if |assocs| == 0 then ([], [])
    else
      var p := CatalogIds(subject, assocs[..|assocs| - 1], catalogs);
      var a := assocs[|assocs| - 1];
      if a.name in catalogs then (p.0 + [catalogs[a.name].sitecoreId], p.1)
      else (p.0, p.1 + [CatalogNotFound(subject, a.name)])
  }

  lemma {:induction false} CatalogIdsFilters(subject: string, assocs: seq<CatalogAssociation>, catalogs: map<string, Catalog>)
    ensures var r := CatalogIds(subject, assocs, catalogs);
      && r.0 == Linq.Select(Linq.Where(assocs, Resolvable(catalogs)), SitecoreIdOf(catalogs))
      && r.1 == Linq.Select(Linq.Where(assocs, Unresolvable(catalogs)), MissingCatalog(subject))
      && |r.0| + |r.1| == |assocs|
  {
    if |assocs| > 0 {
      var init, a := assocs[..|assocs| - 1], assocs[|assocs| - 1];
      CatalogIdsFilters(subject, init, catalogs);
      Linq.SelectSnoc(Linq.Where(init, Resolvable(catalogs)), a, SitecoreIdOf(catalogs));
      Linq.SelectSnoc(Linq.Where(init, Unresolvable(catalogs)), a, MissingCatalog(subject));
    }
  }

  /** The catalog an edge's parent id names, when it is a catalog id. */
  function TargetCatalog(n: Naming, e: ParentEdge): Option<string> {
    if e.ParentId().Some? && n.isCatalogId(e.ParentId().value) then Some(n.stripCatalogPrefix(e.ParentId().value))
    else None
  }

  /** The second loop: for every edge to a catalog, the catalog's Sitecore
      id when it is found and a warning naming the parent id otherwise;
      edges to categories are passed over. */
  function ParentCatalogIds(n: Naming, subject: string, edges: seq<ParentEdge>, catalogs: map<string, Catalog>)
    : (seq<string>, seq<Warning>)
  {
    if |edges| == 0 then ([], [])
    else
      var p := ParentCatalogIds(n, subject, edges[..|edges| - 1], catalogs);
      var r := ParentCatalogOf(n, subject, edges[|edges| - 1], catalogs);
      (p.0 + r.0, p.1 + r.1)
  }

  /** What one edge contributes to the second loop. */
  function ParentCatalogOf(n: Naming, subject: string, e: ParentEdge, catalogs: map<string, Catalog>)
    : (r: (seq<string>, seq<Warning>))
    ensures |r.0| + |r.1| <= 1
  {
    match TargetCatalog(n, e)
    case None => ([], [])
    case Some(name) =>
      if name in catalogs then ([catalogs[name].sitecoreId], [])
      else ([], [CatalogNotFound(subject, e.ParentId().value)])
  }

  /** The loop over a concatenation is the loops over its parts. */
  lemma {:induction false} ParentCatalogIdsAppend(n: Naming, subject: string, a: seq<ParentEdge>, b: seq<ParentEdge>, catalogs: map<string, Catalog>)
    ensures var ra, rb := ParentCatalogIds(n, subject, a, catalogs), ParentCatalogIds(n, subject, b, catalogs);
      ParentCatalogIds(n, subject, a + b, catalogs) == (ra.0 + rb.0, ra.1 + rb.1)
  {
    var ra := ParentCatalogIds(n, subject, a, catalogs);
    if |b| == 0 {
      assert a + b == a;
      assert ra.0 + [] == ra.0 && ra.1 + [] == ra.1;
    } else {
      var b' := b[..|b| - 1];
      assert (a + b)[..|a + b| - 1] == a + b';
      assert (a + b)[|a + b| - 1] == b[|b| - 1];
      ParentCatalogIdsAppend(n, subject, a, b', catalogs);
      var rb' := ParentCatalogIds(n, subject, b', catalogs);
      var r := ParentCatalogOf(n, subject, b[|b| - 1], catalogs);
      assert ra.0 + rb'.0 + r.0 == ra.0 + (rb'.0 + r.0);
      assert ra.1 + rb'.1 + r.1 == ra.1 + (rb'.1 + r.1);
    }
  }

  function ItemWithCatalogs(n: Naming, item: Category, catalogs: map<string, Catalog>): (Category, seq<Warning>) {
    var data := CategoryTransient(item);
    var ids := CatalogIds(item.id, data.catalogAssociations, catalogs);
    var parents := ParentCatalogIds(n, item.id, data.toCreate, catalogs);
    (item.(catalogToEntityList := Text.JoinOrNull(ids.0),
           parentCatalogList := Text.JoinOrNull(parents.0),
           transient := Some(data)),
     ids.1 + parents.1)
  }

  /** The whole pass over the categories, keyed by catalog name. It never stops the import. */
  function CatalogStage(n: Naming, items: seq<Category>, catalogs: map<string, Catalog>): (seq<Category>, seq<Warning>) {
    if |items| == 0 then ([], [])
    else
      var p := CatalogStage(n, items[..|items| - 1], catalogs);
      var r := ItemWithCatalogs(n, items[|items| - 1], catalogs);
      (p.0 + [r.0], p.1 + r.1)
  }

  method ResolveItemCatalogs(n: Naming, item: Category, allCatalogs: map<string, Catalog>) returns (r: (Category, seq<Warning>))
    ensures r == ItemWithCatalogs(n, item, allCatalogs)
  {
    var transientData := CategoryTransient(item);
    var assocs := transientData.catalogAssociations;
    var catalogList: seq<string> := [];
    var warnings: seq<Warning> := [];
    var j := 0;
    while j < |assocs|
      invariant 0 <= j <= |assocs|
      invariant (catalogList, warnings) == CatalogIds(item.id, assocs[..j], allCatalogs)
    {
      assert assocs[..j + 1][..j] == assocs[..j];
      var association := assocs[j];
      if association.name in allCatalogs {
        catalogList := catalogList + [allCatalogs[association.name].sitecoreId];
      } else {
        warnings := warnings + [CatalogNotFound(item.id, association.name)];
      }
      j := j + 1;
    }
    assert assocs[..j] == assocs;
    var edges := transientData.toCreate;
    var parentCatalogList: seq<string> := [];
    var parentWarnings: seq<Warning> := [];
    j := 0;
    while j < |edges|
      invariant 0 <= j <= |edges|
      invariant (parentCatalogList, parentWarnings) == ParentCatalogIds(n, item.id, edges[..j], allCatalogs)
    {
      assert edges[..j + 1][..j] == edges[..j];
      var association := edges[j];
      if association.ParentId().Some? && n.isCatalogId(association.ParentId().value) {
        var name := n.stripCatalogPrefix(association.ParentId().value);
        if name in allCatalogs {
          assert parentWarnings + [] == parentWarnings;
          parentCatalogList := parentCatalogList + [allCatalogs[name].sitecoreId];
        } else {
          assert parentCatalogList + [] == parentCatalogList;
          parentWarnings := parentWarnings + [CatalogNotFound(item.id, association.ParentId().value)];
        }
      } else {
        assert parentCatalogList + [] == parentCatalogList && parentWarnings + [] == parentWarnings;
      }
      j := j + 1;
    }
    assert edges[..j] == edges;
    r := (item.(catalogToEntityList := Text.JoinOrNull(catalogList),
                parentCatalogList := Text.JoinOrNull(parentCatalogList),
                transient := Some(transientData)),
          warnings + parentWarnings);
  }

  method TransformCatalog(n: Naming, importItems: seq<Category>, allCatalogs: map<string, Catalog>)
    returns (r: (seq<Category>, seq<Warning>))
    ensures r == CatalogStage(n, importItems, allCatalogs)
  {
    var items: seq<Category> := [];
    var log: seq<Warning> := [];
    var i := 0;
    while i < |importItems|
      invariant 0 <= i <= |importItems|
      invariant (items, log) == CatalogStage(n, importItems[..i], allCatalogs)
    {
      assert importItems[..i + 1][..i] == importItems[..i];
      var resolved := ResolveItemCatalogs(n, importItems[i], allCatalogs);
      items := items + [resolved.0];
      log := log + resolved.1;
      i := i + 1;
    }
    assert importItems[..i] == importItems;
    r := (items, log);
  }

  // ---------------------------------------------------------------------
  // TransformCategory: parent category associations become category ids
  // and edges to the categories found

  /** `FirstOrDefault` over the categories of this import, by name: the
      first one with that name, whatever its catalog. */
  function FindByName(items: seq<Category>, name: string): (r: Option<Category>)
    ensures r.Some? ==> r.value in items && r.value.name == name
    ensures r.Some? ==> exists k :: 0 <= k < |items| && items[k] == r.value
                          && forall j :: 0 <= j < k ==> items[j].name != name
    ensures r.None? <==> forall c :: c in items ==> c.name != name
  {
    Linq.FirstWhere(items, (c: Category) => c.name == name)
  }

  /** The category an association names: the stored category of that name
      in the catalog's context, else the first category of this import with
      that name, in any catalog. */
  function FindCategory(context: CatalogContext, batch: seq<Category>, name: string): Option<Category> {
    if name in context.categoriesByName then Some(context.categoriesByName[name]) else FindByName(batch, name)
  }

  /** One category association: a missing catalog context stops the import,
      a category found adds its Sitecore id and an edge to it, a category
      not found adds a warning. */
  function CategoryOne(n: Naming, itemId: string, contexts: seq<CatalogContext>, batch: seq<Category>,
                       p: CategoryPass, a: CategoryAssociation): Result<CategoryPass, ImportError>
  {
    match FindContext(contexts, a.catalogName)
    case None => Failure(CatalogContextMissing(a.catalogName))
    case Some(context) =>
      match FindCategory(context, batch, a.categoryName)
      case Some(category) =>
        Success(p.(categoryList := p.categoryList + [category.sitecoreId],
                   edges := p.edges + [EdgeToEntity(itemId, n.catalogId(a.catalogName), ToParentRef(category))]))
      case None =>
        Success(p.(warnings := p.warnings + [CategoryNotFound(itemId, a.categoryName)]))
  }

  function CategoryStep(n: Naming, itemId: string, contexts: seq<CatalogContext>, batch: seq<Category>)
    : (CategoryPass, CategoryAssociation) -> Result<CategoryPass, ImportError>
  {
    (p: CategoryPass, a: CategoryAssociation) => CategoryOne(n, itemId, contexts, batch, p, a)
  }

  function ItemWithCategoryLinks(n: Naming, contexts: seq<CatalogContext>, batch: seq<Category>, item: Category)
    : Result<(Category, seq<Warning>), ImportError>
  {
    var data := CategoryTransient(item);
    var p :- FoldSteps(data.categoryAssociations, NoCategories, CategoryStep(n, item.id, contexts, batch));
    Success((item.(
      parentCategoryList := Text.JoinOrNull(p.categoryList),
      transient := Some(data.(toCreate := data.toCreate + p.edges))), p.warnings))
  }

  function CategoryFn(n: Naming, contexts: seq<CatalogContext>, batch: seq<Category>)
    : Category -> Result<(Category, seq<Warning>), ImportError>
  {
    (item: Category) => ItemWithCategoryLinks(n, contexts, batch, item)
  }

  /** The whole pass; the categories of this import are also where a
      category missing from storage is looked for. */
  function CategoryStage(n: Naming, items: seq<Category>, contexts: seq<CatalogContext>)
    : Result<(seq<Category>, seq<Warning>), ImportError>
  {
    FoldSteps(items, ([], []), LogStep(CategoryFn(n, contexts, items)))
  }

  method ResolveItemCategories(n: Naming, contexts: seq<CatalogContext>, batch: seq<Category>, item: Category)
    returns (r: Result<(Category, seq<Warning>), ImportError>)
    ensures r == ItemWithCategoryLinks(n, contexts, batch, item)
  {
    var transientData := CategoryTransient(item);
    var assocs := transientData.categoryAssociations;
    var step := CategoryStep(n, item.id, contexts, batch);
    var itemsCategoryList: seq<string> := [];
    var edges: seq<ParentEdge> := [];
    var warnings: seq<Warning> := [];
    var j := 0;
    while j < |assocs|
      invariant 0 <= j <= |assocs|
      invariant FoldSteps(assocs[..j], NoCategories, step) == Success(CategoryPass(itemsCategoryList, edges, warnings))
    {
      FoldAt(assocs, NoCategories, step, j);
      var categoryAssociation := assocs[j];
      var catalogContext := FindContext(contexts, categoryAssociation.catalogName);
      if catalogContext.None? {
        return Failure(CatalogContextMissing(categoryAssociation.catalogName));
      }
      var category: Option<Category>;
      if categoryAssociation.categoryName in catalogContext.value.categoriesByName {
        category := Some(catalogContext.value.categoriesByName[categoryAssociation.categoryName]);
      } else {
        category := FindByName(batch, categoryAssociation.categoryName);
      }
      if category.Some? {
        itemsCategoryList := itemsCategoryList + [category.value.sitecoreId];
        edges := edges + [EdgeToEntity(item.id, n.catalogId(categoryAssociation.catalogName), ToParentRef(category.value))];
      } else {
        warnings := warnings + [CategoryNotFound(item.id, categoryAssociation.categoryName)];
      }
      j := j + 1;
    }
    assert assocs[..j] == assocs;
    r := Success((item.(
      parentCategoryList := Text.JoinOrNull(itemsCategoryList),
      transient := Some(transientData.(toCreate := transientData.toCreate + edges))), warnings));
  }

  method TransformCategory(n: Naming, catalogContextList: seq<CatalogContext>, importItems: seq<Category>)
    returns (r: Result<(seq<Category>, seq<Warning>), ImportError>)
    ensures r == CategoryStage(n, importItems, catalogContextList)
  {
    var step := LogStep(CategoryFn(n, catalogContextList, importItems));
    var items: seq<Category> := [];
    var log: seq<Warning> := [];
    var i := 0;
    while i < |importItems|
      invariant 0 <= i <= |importItems|
      invariant FoldSteps(importItems[..i], ([], []), step) == Success((items, log))
    {
      FoldAt(importItems, ([], []), step, i);
      var resolved :- ResolveItemCategories(n, catalogContextList, importItems, importItems[i]);
      items := items + [resolved.0];
      log := log + resolved.1;
      i := i + 1;
    }
    assert importItems[..i] == importItems;
    r := Success((items, log));
  }

  /** One association: it fails exactly on a missing context, and
      otherwise adds an id with its matching edge, or a warning. */
  lemma CategoryOneShape(n: Naming, itemId: string, contexts: seq<CatalogContext>, batch: seq<Category>,
                         p: CategoryPass, a: CategoryAssociation)
    ensures var r := CategoryOne(n, itemId, contexts, batch, p, a);
      && (r.Success? <==> FindContext(contexts, a.catalogName).Some?)
      && (r.Success? && EdgesMatch(itemId, p) ==>
            EdgesMatch(itemId, r.value) && |r.value.categoryList| + |r.value.warnings| == |p.categoryList| + |p.warnings| + 1)
  {
  }

  /** The category pass for one category, stated without its loop: it fails
      exactly when some association's catalog has no context; otherwise
      every association yields either a category id with its edge or a
      warning. */
  lemma {:induction false} CategoryPassSpec(n: Naming, itemId: string, contexts: seq<CatalogContext>, batch: seq<Category>, assocs: seq<CategoryAssociation>)
    ensures var r := FoldSteps(assocs, NoCategories, CategoryStep(n, itemId, contexts, batch));
      && (r.Success? <==> ContextsCover(contexts, assocs))
      && (r.Success? ==> EdgesMatch(itemId, r.value) && |r.value.categoryList| + |r.value.warnings| == |assocs|)
  {
    if |assocs| > 0 {
      var init, last := assocs[..|assocs| - 1], assocs[|assocs| - 1];
      CategoryPassSpec(n, itemId, contexts, batch, init);
      var prev := FoldSteps(init, NoCategories, CategoryStep(n, itemId, contexts, batch));
      if prev.Success? {
        CategoryOneShape(n, itemId, contexts, batch, prev.value, last);
      }
      ContextsCoverSnoc(contexts, assocs);
    }
  }

  /** Where this command looks a category up: its catalog's context, then
      the categories of this import. */
  function ContextOrBatchCategory(contexts: seq<CatalogContext>, batch: seq<Category>)
    : CategoryAssociation -> Option<Category>
  {
    (a: CategoryAssociation) =>
      match FindContext(contexts, a.catalogName)
      case None => None
      case Some(context) => FindCategory(context, batch, a.categoryName)
  }

  /** One association that succeeds adds the found category's id and edge,
      or else its warning. */
  lemma CategoryOneFound(n: Naming, itemId: string, contexts: seq<CatalogContext>, batch: seq<Category>,
                         p: CategoryPass, a: CategoryAssociation)
    requires CategoryOne(n, itemId, contexts, batch, p, a).Success?
    ensures var lookup := ContextOrBatchCategory(contexts, batch);
      var found := CategoryFound(lookup)(a);
      CategoryOne(n, itemId, contexts, batch, p, a).value == CategoryPass(
        p.categoryList + (if found then [FoundId(lookup)(a)] else []),
        p.edges + (if found then [FoundEdge(n.catalogId, itemId, lookup)(a)] else []),
        p.warnings + (if found then [] else [MissingCategory(itemId)(a)]))
  {
  }

  /** The category pass, stated without its loop: the ids and the edges
      are those of the associations whose category is found, in order, and
      the warnings those of the others. */
  lemma {:induction false} CategoryPassFilters(n: Naming, itemId: string, contexts: seq<CatalogContext>, batch: seq<Category>,
                                               assocs: seq<CategoryAssociation>)
    ensures var r := FoldSteps(assocs, NoCategories, CategoryStep(n, itemId, contexts, batch));
      var lookup := ContextOrBatchCategory(contexts, batch);
      r.Success? ==>
        && r.value.categoryList == Linq.Select(Linq.Where(assocs, CategoryFound(lookup)), FoundId(lookup))
        && r.value.edges == Linq.Select(Linq.Where(assocs, CategoryFound(lookup)), FoundEdge(n.catalogId, itemId, lookup))
        && r.value.warnings == Linq.Select(Linq.Where(assocs, CategoryMissing(lookup)), MissingCategory(itemId))
  {
    var step := CategoryStep(n, itemId, contexts, batch);
    var lookup := ContextOrBatchCategory(contexts, batch);
    if |assocs| > 0 && FoldSteps(assocs, NoCategories, step).Success? {
      var init, last := assocs[..|assocs| - 1], assocs[|assocs| - 1];
      FoldLast(assocs, NoCategories, step);
      CategoryPassFilters(n, itemId, contexts, batch, init);
      CategoryOneFound(n, itemId, contexts, batch, FoldSteps(init, NoCategories, step).value, last);
      Linq.SelectSnoc(Linq.Where(init, CategoryFound(lookup)), last, FoundId(lookup));
      Linq.SelectSnoc(Linq.Where(init, CategoryFound(lookup)), last, FoundEdge(n.catalogId, itemId, lookup));
      Linq.SelectSnoc(Linq.Where(init, CategoryMissing(lookup)), last, MissingCategory(itemId));
    }
  }

  /** One category's parent links: the pass fails exactly when some
      association's catalog has no context; otherwise ParentCategoryList
      joins the ids of the categories found, one edge to each is added to
      the edges to create, and each category not found is warned about. */
  lemma CategoryLinksOfItem(n: Naming, contexts: seq<CatalogContext>, batch: seq<Category>, item: Category)
    ensures var r := ItemWithCategoryLinks(n, contexts, batch, item);
      var data := CategoryTransient(item);
      var assocs := data.categoryAssociations;
      var lookup := ContextOrBatchCategory(contexts, batch);
      && (r.Success? <==> ContextsCover(contexts, assocs))
      && (r.Success? ==>
            && r.value.0.parentCategoryList == Text.JoinOrNull(Linq.Select(Linq.Where(assocs, CategoryFound(lookup)), FoundId(lookup)))
            && CategoryTransient(r.value.0).toCreate
                 == data.toCreate + Linq.Select(Linq.Where(assocs, CategoryFound(lookup)), FoundEdge(n.catalogId, item.id, lookup))
            && r.value.1 == Linq.Select(Linq.Where(assocs, CategoryMissing(lookup)), MissingCategory(item.id)))
  {
    var assocs := CategoryTransient(item).categoryAssociations;
    CategoryPassSpec(n, item.id, contexts, batch, assocs);
    CategoryPassFilters(n, item.id, contexts, batch, assocs);
  }

  /** A category stored in the catalog's context wins over one of this
      import with the same name; failing both, the association is dropped
      with a warning. */
  lemma CategoryLookupOrder(n: Naming, itemId: string, contexts: seq<CatalogContext>, batch: seq<Category>,
                            p: CategoryPass, a: CategoryAssociation)
    requires FindContext(contexts, a.catalogName).Some?
    ensures var context := FindContext(contexts, a.catalogName).value;
      var r := CategoryOne(n, itemId, contexts, batch, p, a);
      && r.Success?
      && (a.categoryName in context.categoriesByName ==>
            r.value.categoryList == p.categoryList + [context.categoriesByName[a.categoryName].sitecoreId])
      && (a.categoryName !in context.categoriesByName && (exists c :: c in batch && c.name == a.categoryName) ==>
            exists k :: 0 <= k < |batch| && batch[k].name == a.categoryName
              && (forall j :: 0 <= j < k ==> batch[j].name != a.categoryName)
              && r.value.categoryList == p.categoryList + [batch[k].sitecoreId]
              && r.value.edges == p.edges + [EdgeToEntity(itemId, n.catalogId(a.catalogName), ToParentRef(batch[k]))])
      && (a.categoryName !in context.categoriesByName && (forall c :: c in batch ==> c.name != a.categoryName) ==>
            r.value.categoryList == p.categoryList && r.value.warnings == p.warnings + [CategoryNotFound(itemId, a.categoryName)])
  {
  }

  /** The fallback ignores the catalog: when the first category of this
      import with the association's name lies in another catalog than a
      later one of that name in the association's own catalog, the edge
      goes to the first one, in the other catalog. */
  lemma BatchFallbackCrossesCatalogs(n: Naming, itemId: string, contexts: seq<CatalogContext>, batch: seq<Category>,
                                     p: CategoryPass, a: CategoryAssociation, k: nat, own: nat)
    requires FindContext(contexts, a.catalogName).Some?
    requires a.categoryName !in FindContext(contexts, a.catalogName).value.categoriesByName
    requires k < own < |batch| && batch[k].name == a.categoryName && batch[own].name == a.categoryName
    requires forall j :: 0 <= j < k ==> batch[j].name != a.categoryName
    requires batch[own].id == n.categoryId(a.categoryName, a.catalogName) != batch[k].id
    ensures var r := CategoryOne(n, itemId, contexts, batch, p, a);
      && r.Success?
      && r.value.edges == p.edges + [EdgeToEntity(itemId, n.catalogId(a.catalogName), ToParentRef(batch[k]))]
      && r.value.edges[|p.edges|].ParentId() != Some(n.categoryId(a.categoryName, a.catalogName))
  {
    var r := FindByName(batch, a.categoryName);
    var k' :| 0 <= k' < |batch| && batch[k'] == r.value && forall j :: 0 <= j < k' ==> batch[j].name != a.categoryName;
    assert k' == k;
  }

  // ---------------------------------------------------------------------
  // Process: the record pass, then the three passes over the drafts

  /** `SelectMany(d => d.CatalogAssociationList).Select(a => a.Name)`, per category. */
  function CatalogNamesFn(): Category -> seq<string> {
    (item: Category) => CatalogNames(CategoryTransient(item))
  }

  /** The whole transform, given the catalogs in storage and the catalog
      context lookup: the categories it returns and the warnings it logs. */
  function Transform(n: Naming, rows: seq<Row>, catalogs: map<string, Catalog>,
                     contextsFor: seq<string> -> seq<CatalogContext>)
    : Result<(seq<Category>, seq<Warning>), ImportError>
  {
    var drafts :- CategoryDrafts(n, rows);
    var flagged := ParentCatalogStage(n, drafts);
    var withCatalogs := CatalogStage(n, flagged, catalogs);
    var names := Linq.Distinct(Linq.SelectMany(flagged, CatalogNamesFn()));
    var resolved :- CategoryStage(n, withCatalogs.0, contextsFor(names));
    Success((resolved.0, withCatalogs.1 + resolved.1))
  }

  method TransformCore(n: Naming, rawLine: Row, importItems: seq<Category>)
    returns (r: Result<(seq<Category>, nat), ImportError>)
    ensures r == CoreRow(n, importItems, rawLine)
  {
    var catalogName :- Column(rawLine, CatalogNameColumn);
    var name :- Column(rawLine, CategoryNameColumn);
    var id := n.categoryId(name, catalogName);
    var k := IndexOfId(importItems, id);
    if k == |importItems| {
      var item :- DraftFromRow(n, rawLine);
      return Success((importItems + [item], k));
    }
    return Success((importItems, k));
  }

  method TransformParentAssociations(n: Naming, rawLine: Row, item: Category) returns (r: Result<Category, ImportError>)
    ensures r == WithParentAssociations(n, item, rawLine)
  {
    var catalogName :- Column(rawLine, CatalogNameColumn);
    var parentCategoryName :- Column(rawLine, ParentCategoryColumn);
    var data := CategoryTransient(item);
    if parentCategoryName != NoParent {
      var categoryAssociation := CategoryAssociation(catalogName, parentCategoryName);
      if categoryAssociation !in data.categoryAssociations {
        data := data.(toCreate := data.toCreate + [CategoryEdge(n, item.id, categoryAssociation)],
                      categoryAssociations := data.categoryAssociations + [categoryAssociation]);
      }
    }
    if catalogName !in CatalogNames(data) {
      data := data.(catalogAssociations := data.catalogAssociations + [CatalogAssociation(catalogName, false)]);
    }
    r := Success(item.(transient := Some(data)));
  }

  /** One record is `TransformCore` and then `TransformParentAssociations`
      on the draft it returned: either failure is the record's failure. */
  lemma RowStepSplits(n: Naming, drafts: seq<Category>, row: Row)
    ensures CoreRow(n, drafts, row).Failure? ==> RowStep(n, drafts, row) == Failure(CoreRow(n, drafts, row).error)
    ensures CoreRow(n, drafts, row).Success? ==>
      var core := CoreRow(n, drafts, row).value;
      var item := WithParentAssociations(n, core.0[core.1], row);
      && (item.Failure? ==> RowStep(n, drafts, row) == Failure(item.error))
      && (item.Success? ==> RowStep(n, drafts, row) == Success(core.0[core.1 := item.value]))
  {
    if CoreRow(n, drafts, row).Success? && !HasDraft(drafts, RowId(n, row).value) {
      var core := CoreRow(n, drafts, row).value;
      var item := WithParentAssociations(n, core.0[core.1], row);
      if item.Success? {
        assert core.0[core.1 := item.value] == drafts + [item.value];
      }
    }
  }

  method Process(n: Naming, importRawLines: seq<Row>, allCatalogs: map<string, Catalog>,
                 contextsFor: seq<string> -> seq<CatalogContext>)
    returns (r: Result<(seq<Category>, seq<Warning>), ImportError>)
    ensures r == Transform(n, importRawLines, allCatalogs, contextsFor)
  {
    var importItems: seq<Category> := [];
    var i := 0;
    while i < |importRawLines|
      invariant 0 <= i <= |importRawLines|
      invariant FoldSteps(importRawLines[..i], [], RowStepFn(n)) == Success(importItems)
    {
      FoldAt(importRawLines, [], RowStepFn(n), i);
      RowStepSplits(n, importItems, importRawLines[i]);
      var core :- TransformCore(n, importRawLines[i], importItems);
      var item :- TransformParentAssociations(n, importRawLines[i], core.0[core.1]);
      importItems := core.0[core.1 := item];
      i := i + 1;
    }
    assert importRawLines[..i] == importRawLines;
    var flagged := TransformParentCatalogData(n, importItems);
    var withCatalogs := TransformCatalog(n, flagged, allCatalogs);
    var catalogNameList := Linq.Distinct(Linq.SelectMany(flagged, CatalogNamesFn()));
    var resolved :- TransformCategory(n, contextsFor(catalogNameList), withCatalogs.0);
    r := Success((resolved.0, withCatalogs.1 + resolved.1));
  }

  // ---------------------------------------------------------------------
  // What the transform promises

  /** The fields the three passes over the drafts leave alone. */
  function CoreOf(c: Category): Category {
    c.(catalogToEntityList := None, parentCatalogList := None, parentCategoryList := None, transient := None)
  }

  /** The parent-catalog pass keeps the draft, its category associations and its catalog names. */
  lemma ParentCatalogsKeep(n: Naming, item: Category)
    ensures var data, data' := CategoryTransient(item), CategoryTransient(ItemWithParentCatalogs(n, item));
      && CoreOf(ItemWithParentCatalogs(n, item)) == CoreOf(item)
      && data'.categoryAssociations == data.categoryAssociations
      && CatalogNames(data') == CatalogNames(data)
  {
    var data := CategoryTransient(item);
    FlagParentsSpec(n, item.id, data.categoryAssociations, data.catalogAssociations);
  }

  lemma {:induction false} CatalogStagePointwise(n: Naming, items: seq<Category>, catalogs: map<string, Catalog>)
    ensures |CatalogStage(n, items, catalogs).0| == |items|
    ensures forall k :: 0 <= k < |items| ==> CatalogStage(n, items, catalogs).0[k] == ItemWithCatalogs(n, items[k], catalogs).0
  {
    if |items| > 0 {
      CatalogStagePointwise(n, items[..|items| - 1], catalogs);
    }
  }

  /** Every parent category a draft's records name lies in one of the draft's catalogs. */
  lemma CategoryCatalogsListed(n: Naming, rows: seq<Row>, d: Category)
    requires Associated(n, rows, d)
    ensures var data := CategoryTransient(d);
      forall i :: 0 <= i < |data.categoryAssociations| ==> data.categoryAssociations[i].catalogName in CatalogNames(data)
  {
    var data := CategoryTransient(d);
    forall i | 0 <= i < |data.categoryAssociations|
      ensures data.categoryAssociations[i].catalogName in CatalogNames(data)
    {
      var a := data.categoryAssociations[i];
      assert ParentInRows(n, rows, d.id, a);
      var j :| 0 <= j < |rows| && RowParent(n, rows[j], d.id, a);
      assert RowCatalog(n, rows[j], d.id, a.catalogName);
    }
  }

  /** The import never stops for want of a catalog context when the context
      lookup answers every catalog asked about: it succeeds exactly when
      every record has the columns it needs. */
  lemma TransformSucceeds(n: Naming, rows: seq<Row>, catalogs: map<string, Catalog>,
                          contextsFor: seq<string> -> seq<CatalogContext>)
    requires AnswersAll(contextsFor)
    ensures Transform(n, rows, catalogs, contextsFor).Success? <==> CategoryDrafts(n, rows).Success?
  {
    if CategoryDrafts(n, rows).Success? {
      var drafts := CategoryDrafts(n, rows).value;
      var origin := CategoryDraftsSpec(n, rows);
      var names := Linq.Distinct(Linq.SelectMany(ParentCatalogStage(n, drafts), CatalogNamesFn()));
      StagesSucceed(n, rows, drafts, catalogs, names, contextsFor(names));
    }
  }

  /** After the records, the passes succeed when every catalog the drafts
      name has a context. */
  lemma StagesSucceed(n: Naming, rows: seq<Row>, drafts: seq<Category>, catalogs: map<string, Catalog>,
                      names: seq<string>, contexts: seq<CatalogContext>)
    requires AllAssociated(n, rows, drafts)
    requires names == Linq.Distinct(Linq.SelectMany(ParentCatalogStage(n, drafts), CatalogNamesFn()))
    requires forall name :: name in names ==> FindContext(contexts, name).Some?
    ensures CategoryStage(n, CatalogStage(n, ParentCatalogStage(n, drafts), catalogs).0, contexts).Success?
  {
    var flagged := ParentCatalogStage(n, drafts);
    var withCatalogs := CatalogStage(n, flagged, catalogs);
    CatalogStagePointwise(n, flagged, catalogs);
    forall k | 0 <= k < |withCatalogs.0|
      ensures CategoryFn(n, contexts, withCatalogs.0)(withCatalogs.0[k]).Success?
    {
      CategoryCatalogsListed(n, rows, drafts[k]);
      DraftLinksSucceed(n, flagged, drafts[k], k, catalogs, names, contexts, withCatalogs.0);
    }
    LogStepsSucceed(withCatalogs.0, CategoryFn(n, contexts, withCatalogs.0));
  }

  /** The category pass succeeds on draft `k`: each of its parent
      categories lies in one of its catalogs, and each of those has a context. */
  lemma DraftLinksSucceed(n: Naming, flagged: seq<Category>, d: Category, k: nat,
                          catalogs: map<string, Catalog>, names: seq<string>, contexts: seq<CatalogContext>, batch: seq<Category>)
    requires var data := CategoryTransient(d);
      forall i :: 0 <= i < |data.categoryAssociations| ==> data.categoryAssociations[i].catalogName in CatalogNames(data)
    requires k < |flagged| && flagged[k] == ItemWithParentCatalogs(n, d)
    requires names == Linq.Distinct(Linq.SelectMany(flagged, CatalogNamesFn()))
    requires forall name :: name in names ==> FindContext(contexts, name).Some?
    ensures CategoryFn(n, contexts, batch)(ItemWithCatalogs(n, flagged[k], catalogs).0).Success?
  {
    ParentCatalogsKeep(n, d);
    var item := ItemWithCatalogs(n, flagged[k], catalogs).0;
    var assocs := CategoryTransient(item).categoryAssociations;
    assert assocs == CategoryTransient(d).categoryAssociations;
    forall i | 0 <= i < |assocs|
      ensures FindContext(contexts, assocs[i].catalogName).Some?
    {
      var name := assocs[i].catalogName;
      assert name in CatalogNamesFn()(flagged[k]);
      Linq.SelectManyMembers(flagged, CatalogNamesFn(), name);
      assert name in names;
    }
    CategoryPassSpec(n, item.id, contexts, batch, assocs);
  }

  function IsMissingColumn(): ImportError -> bool {
    (e: ImportError) => e.MissingColumn?
  }

  function IsContextMissing(): ImportError -> bool {
    (e: ImportError) => e.CatalogContextMissing?
  }

  lemma RowStepErrors(n: Naming, drafts: seq<Category>, row: Row)
    ensures RowStep(n, drafts, row).Failure? ==> RowStep(n, drafts, row).error.MissingColumn?
  {
  }

  /** The two ways the transform stops: a record without a column it reads,
      or, once every record is read, a category association whose catalog
      has no context. */
  lemma TransformFailures(n: Naming, rows: seq<Row>, catalogs: map<string, Catalog>,
                          contextsFor: seq<string> -> seq<CatalogContext>)
    ensures var r := Transform(n, rows, catalogs, contextsFor);
      r.Failure? ==>
        || (CategoryDrafts(n, rows).Failure? && r.error.MissingColumn?)
        || (CategoryDrafts(n, rows).Success? && r.error.CatalogContextMissing?)
  {
    forall s, x
      ensures RowStepFn(n)(s, x).Failure? ==> IsMissingColumn()(RowStepFn(n)(s, x).error)
    {
      RowStepErrors(n, s, x);
    }
    FoldErrors(rows, [], RowStepFn(n), IsMissingColumn());
    if CategoryDrafts(n, rows).Success? {
      var drafts := CategoryDrafts(n, rows).value;
      var flagged := ParentCatalogStage(n, drafts);
      var withCatalogs := CatalogStage(n, flagged, catalogs);
      var names := Linq.Distinct(Linq.SelectMany(flagged, CatalogNamesFn()));
      var contexts := contextsFor(names);
      var f := CategoryFn(n, contexts, withCatalogs.0);
      forall s, x
        ensures LogStep(f)(s, x).Failure? ==> IsContextMissing()(LogStep(f)(s, x).error)
      {
        var step := CategoryStep(n, x.id, contexts, withCatalogs.0);
        forall p, a
          ensures step(p, a).Failure? ==> IsContextMissing()(step(p, a).error)
        {
        }
        FoldErrors(CategoryTransient(x).categoryAssociations, NoCategories, step, IsContextMissing());
      }
      FoldErrors(withCatalogs.0, ([], []), LogStep(f), IsContextMissing());
    }
  }

  /** The three passes over the drafts keep every draft, in order. */
  lemma StagesKeepCore(n: Naming, drafts: seq<Category>, catalogs: map<string, Catalog>, contexts: seq<CatalogContext>)
    requires CategoryStage(n, CatalogStage(n, ParentCatalogStage(n, drafts), catalogs).0, contexts).Success?
    ensures var r := CategoryStage(n, CatalogStage(n, ParentCatalogStage(n, drafts), catalogs).0, contexts).value.0;
      |r| == |drafts| && forall k :: 0 <= k < |r| ==> CoreOf(r[k]) == CoreOf(drafts[k])
  {
    var flagged := ParentCatalogStage(n, drafts);
    var withCatalogs := CatalogStage(n, flagged, catalogs);
    CatalogStagePointwise(n, flagged, catalogs);
    LogStepsPointwise(withCatalogs.0, CategoryFn(n, contexts, withCatalogs.0));
    forall k | 0 <= k < |drafts|
      ensures CoreOf(flagged[k]) == CoreOf(drafts[k])
    {
      ParentCatalogsKeep(n, drafts[k]);
    }
  }

  /** Categories that keep the drafts' own fields keep what the record pass promised of them. */
  lemma KeptDrafts(n: Naming, rows: seq<Row>, drafts: seq<Category>, origin: seq<nat>, r: seq<Category>)
    requires DraftsFrom(n, rows, drafts, origin)
    requires |r| == |drafts| && forall k :: 0 <= k < |r| ==> CoreOf(r[k]) == CoreOf(drafts[k])
    ensures DistinctIds(r) && Covers(n, rows, r)
    ensures forall k :: 0 <= k < |r| ==>
              origin[k] < |rows| && FirstWithId(n, rows, origin[k], r[k].id)
              && DraftFromRow(n, rows[origin[k]]) == Success(CoreOf(r[k]))
  {
    assert forall k :: 0 <= k < |r| ==> r[k].id == CoreOf(r[k]).id == drafts[k].id;
    forall k | 0 <= k < |r|
      ensures DraftFromRow(n, rows[origin[k]]) == Success(CoreOf(r[k]))
    {
      assert BuiltFrom(n, rows, drafts[k], origin[k]);
    }
    forall j | 0 <= j < |rows|
      ensures RowHasDraft(n, rows[j], r)
    {
      assert RowHasDraft(n, rows[j], drafts);
      var k :| 0 <= k < |drafts| && drafts[k].id == RowId(n, rows[j]).value;
      assert r[k].id == drafts[k].id;
    }
  }

  /** The categories returned: one per category id, every record's id among
      them, each carrying the name, ids, display name and list memberships of
      the first record with its id. */
  lemma TransformResult(n: Naming, rows: seq<Row>, catalogs: map<string, Catalog>,
                        contextsFor: seq<string> -> seq<CatalogContext>) returns (origin: seq<nat>)
    requires Transform(n, rows, catalogs, contextsFor).Success?
    ensures var r := Transform(n, rows, catalogs, contextsFor).value.0;
      && |origin| == |r| && DistinctIds(r) && Covers(n, rows, r)
      && forall k :: 0 <= k < |r| ==>
           origin[k] < |rows| && FirstWithId(n, rows, origin[k], r[k].id)
           && DraftFromRow(n, rows[origin[k]]) == Success(CoreOf(r[k]))
  {
    var drafts := CategoryDrafts(n, rows).value;
    origin := CategoryDraftsSpec(n, rows);
    var flagged := ParentCatalogStage(n, drafts);
    var names := Linq.Distinct(Linq.SelectMany(flagged, CatalogNamesFn()));
    StagesKeepCore(n, drafts, catalogs, contextsFor(names));
    KeptDrafts(n, rows, drafts, origin, Transform(n, rows, catalogs, contextsFor).value.0);
  }

  // ---------------------------------------------------------------------
  // The catalog ids a category ends up with

  /** The naming helpers as the framework defines them: a catalog id is
      recognised as one and its prefix strips back to the catalog name; a
      category id is never taken for a catalog id. */
  ghost predicate CatalogIdsRoundTrip(n: Naming) {
    && (forall c :: n.isCatalogId(n.catalogId(c)) && n.stripCatalogPrefix(n.catalogId(c)) == c)
    && (forall a, b :: !n.isCatalogId(n.categoryId(a, b)))
  }

  /** A catalog in storage that holds none of the category's parent categories. */
  function OrphanIn(categories: seq<CategoryAssociation>, catalogs: map<string, Catalog>): CatalogAssociation -> bool {
    (a: CatalogAssociation) => !HasCategoryIn(categories, a.name) && a.name in catalogs
  }

  /** The record maps to draft `id`, lies in catalog `c` and names a parent category other than "0". */
  predicate RowParentIn(n: Naming, row: Row, id: string, c: string) {
    ParentCategoryColumn in row && RowParent(n, row, id, CategoryAssociation(c, row[ParentCategoryColumn]))
  }

  /** The flag the parent-catalog pass tests, in terms of the records: a
      draft has a category association in catalog `c` exactly when one of
      its records in `c` names a parent category. */
  lemma HasCategoryInRows(n: Naming, rows: seq<Row>, d: Category, c: string)
    requires Associated(n, rows, d)
    ensures HasCategoryIn(CategoryTransient(d).categoryAssociations, c) <==>
            exists j :: 0 <= j < |rows| && RowParentIn(n, rows[j], d.id, c)
  {
    var cats := CategoryTransient(d).categoryAssociations;
    if HasCategoryIn(cats, c) {
      var i :| 0 <= i < |cats| && cats[i].catalogName == c;
      assert cats[i] in cats;
      var j :| 0 <= j < |rows| && RowParent(n, rows[j], d.id, cats[i]);
      assert RowParentIn(n, rows[j], d.id, c);
    }
    if exists j :: 0 <= j < |rows| && RowParentIn(n, rows[j], d.id, c) {
      var j :| 0 <= j < |rows| && RowParentIn(n, rows[j], d.id, c);
      var a := CategoryAssociation(c, rows[j][ParentCategoryColumn]);
      assert ParentInRows(n, rows, d.id, a);
      var i :| 0 <= i < |cats| && cats[i] == a;
    }
  }

  lemma {:induction false} NoCatalogTargets(n: Naming, subject: string, edges: seq<ParentEdge>, catalogs: map<string, Catalog>)
    requires forall i :: 0 <= i < |edges| ==> TargetCatalog(n, edges[i]).None?
    ensures ParentCatalogIds(n, subject, edges, catalogs) == ([], [])
  {
    if |edges| > 0 {
      NoCatalogTargets(n, subject, edges[..|edges| - 1], catalogs);
      var none: seq<string> := [];
      assert ParentCatalogOf(n, subject, edges[|edges| - 1], catalogs) == ([], []);
      assert none + none == none;
    }
  }

  /** The edges the parent-catalog pass adds lead the catalog pass back to
      the catalogs they were made for: the Sitecore id of each such catalog
      in storage, in order. */
  lemma {:induction false} SelfEdgesToCatalogs(n: Naming, itemId: string, subject: string, categories: seq<CategoryAssociation>,
                                               assocs: seq<CatalogAssociation>, catalogs: map<string, Catalog>)
    requires CatalogIdsRoundTrip(n)
    ensures ParentCatalogIds(n, subject, Linq.Select(Linq.Where(assocs, Orphan(categories)), SelfEdgeFn(n, itemId)), catalogs).0
         == Linq.Select(Linq.Where(assocs, OrphanIn(categories, catalogs)), SitecoreIdOf(catalogs))
  {
    if |assocs| > 0 {
      var init, a := assocs[..|assocs| - 1], assocs[|assocs| - 1];
      SelfEdgesToCatalogs(n, itemId, subject, categories, init, catalogs);
      var edges := Linq.Select(Linq.Where(init, Orphan(categories)), SelfEdgeFn(n, itemId));
      var ids := Linq.Select(Linq.Where(init, OrphanIn(categories, catalogs)), SitecoreIdOf(catalogs));
      if Orphan(categories)(a) {
        Linq.SelectSnoc(Linq.Where(init, Orphan(categories)), a, SelfEdgeFn(n, itemId));
        var e := CatalogSelfEdge(n, itemId, a.name);
        assert TargetCatalog(n, e) == Some(a.name);
        ParentCatalogIdsAppend(n, subject, edges, [e], catalogs);
        assert [e][..0] == [];
        if a.name in catalogs {
          Linq.SelectSnoc(Linq.Where(init, OrphanIn(categories, catalogs)), a, SitecoreIdOf(catalogs));
        } else {
          assert Linq.Where(assocs, OrphanIn(categories, catalogs)) == Linq.Where(init, OrphanIn(categories, catalogs)) + [];
          assert ids + [] == ids;
        }
      } else {
        assert Linq.Where(assocs, Orphan(categories)) == Linq.Where(init, Orphan(categories)) + [];
        assert Linq.Where(assocs, Orphan(categories)) == Linq.Where(init, Orphan(categories));
        assert Linq.Where(assocs, OrphanIn(categories, catalogs)) == Linq.Where(init, OrphanIn(categories, catalogs)) + [];
        assert Linq.Where(assocs, OrphanIn(categories, catalogs)) == Linq.Where(init, OrphanIn(categories, catalogs));
      }
    }
  }

  /** Associations with the same catalog names resolve to the same catalog ids. */
  lemma {:induction false} ResolvedByName(xs: seq<CatalogAssociation>, ys: seq<CatalogAssociation>, catalogs: map<string, Catalog>)
    requires |xs| == |ys| && forall i :: 0 <= i < |xs| ==> xs[i].name == ys[i].name
    ensures Linq.Select(Linq.Where(xs, Resolvable(catalogs)), SitecoreIdOf(catalogs))
         == Linq.Select(Linq.Where(ys, Resolvable(catalogs)), SitecoreIdOf(catalogs))
  {
    if |xs| > 0 {
      var xi, yi := xs[..|xs| - 1], ys[..|ys| - 1];
      ResolvedByName(xi, yi, catalogs);
      var x, y := xs[|xs| - 1], ys[|ys| - 1];
      if x.name in catalogs {
        Linq.SelectSnoc(Linq.Where(xi, Resolvable(catalogs)), x, SitecoreIdOf(catalogs));
        Linq.SelectSnoc(Linq.Where(yi, Resolvable(catalogs)), y, SitecoreIdOf(catalogs));
      } else {
        assert Linq.Where(xs, Resolvable(catalogs)) == Linq.Where(xi, Resolvable(catalogs)) + [];
        assert Linq.Where(ys, Resolvable(catalogs)) == Linq.Where(yi, Resolvable(catalogs)) + [];
      }
    }
  }

  /** One draft through the parent-catalog and catalog passes: its catalog
      ids are those of its catalogs found in storage, and its parent catalog
      ids those of its catalogs found in storage that hold none of its
      parent categories, both in record order. */
  lemma CatalogListsOfDraft(n: Naming, rows: seq<Row>, d: Category, catalogs: map<string, Catalog>)
    requires CatalogIdsRoundTrip(n)
    requires Associated(n, rows, d)
    ensures var data := CategoryTransient(d);
      var item := ItemWithCatalogs(n, ItemWithParentCatalogs(n, d), catalogs).0;
      && item.catalogToEntityList
           == Text.JoinOrNull(Linq.Select(Linq.Where(data.catalogAssociations, Resolvable(catalogs)), SitecoreIdOf(catalogs)))
      && item.parentCatalogList
           == Text.JoinOrNull(Linq.Select(Linq.Where(data.catalogAssociations, OrphanIn(data.categoryAssociations, catalogs)), SitecoreIdOf(catalogs)))
  {
    CatalogListOfDraft(n, d, catalogs);
    CategoryEdgesNotCatalogs(n, rows, d);
    ParentCatalogListOfDraft(n, d, catalogs);
  }

  lemma CatalogListOfDraft(n: Naming, d: Category, catalogs: map<string, Catalog>)
    ensures var data := CategoryTransient(d);
      var flagged := FlagParents(n, d.id, data.categoryAssociations, data.catalogAssociations);
      CatalogIds(d.id, flagged.0, catalogs).0
        == Linq.Select(Linq.Where(data.catalogAssociations, Resolvable(catalogs)), SitecoreIdOf(catalogs))
  {
    var data := CategoryTransient(d);
    var flagged := FlagParents(n, d.id, data.categoryAssociations, data.catalogAssociations);
    FlagParentsSpec(n, d.id, data.categoryAssociations, data.catalogAssociations);
    CatalogIdsFilters(d.id, flagged.0, catalogs);
    ResolvedByName(flagged.0, data.catalogAssociations, catalogs);
  }

  /** The edges a draft's records add all lead to categories. */
  lemma CategoryEdgesNotCatalogs(n: Naming, rows: seq<Row>, d: Category)
    requires CatalogIdsRoundTrip(n)
    requires Associated(n, rows, d)
    ensures forall i :: 0 <= i < |CategoryTransient(d).toCreate| ==> TargetCatalog(n, CategoryTransient(d).toCreate[i]).None?
  {
    var data := CategoryTransient(d);
    forall i | 0 <= i < |data.toCreate|
      ensures TargetCatalog(n, data.toCreate[i]).None?
    {
      assert data.toCreate[i] == CategoryEdge(n, d.id, data.categoryAssociations[i]);
    }
  }

  lemma ParentCatalogListOfDraft(n: Naming, d: Category, catalogs: map<string, Catalog>)
    requires CatalogIdsRoundTrip(n)
    requires forall i :: 0 <= i < |CategoryTransient(d).toCreate| ==> TargetCatalog(n, CategoryTransient(d).toCreate[i]).None?
    ensures var data := CategoryTransient(d);
      var flagged := FlagParents(n, d.id, data.categoryAssociations, data.catalogAssociations);
      ParentCatalogIds(n, d.id, data.toCreate + flagged.1, catalogs).0
        == Linq.Select(Linq.Where(data.catalogAssociations, OrphanIn(data.categoryAssociations, catalogs)), SitecoreIdOf(catalogs))
  {
    var data := CategoryTransient(d);
    var flagged := FlagParents(n, d.id, data.categoryAssociations, data.catalogAssociations);
    FlagParentsSpec(n, d.id, data.categoryAssociations, data.catalogAssociations);
    NoCatalogTargets(n, d.id, data.toCreate, catalogs);
    ParentCatalogIdsAppend(n, d.id, data.toCreate, flagged.1, catalogs);
    SelfEdgesToCatalogs(n, d.id, d.id, data.categoryAssociations, data.catalogAssociations, catalogs);
    var ids := ParentCatalogIds(n, d.id, flagged.1, catalogs).0;
    assert [] + ids == ids;
  }

  /** `item` lists, as its catalogs, the catalogs of draft `d` found in
      storage and, as its parent catalogs, those of them holding none of its
      parent categories. */
  predicate CatalogListsFrom(d: Category, item: Category, catalogs: map<string, Catalog>) {
    var data := CategoryTransient(d);
    && item.catalogToEntityList
         == Text.JoinOrNull(Linq.Select(Linq.Where(data.catalogAssociations, Resolvable(catalogs)), SitecoreIdOf(catalogs)))
    && item.parentCatalogList
         == Text.JoinOrNull(Linq.Select(Linq.Where(data.catalogAssociations, OrphanIn(data.categoryAssociations, catalogs)), SitecoreIdOf(catalogs)))
  }

  lemma StagesCatalogLists(n: Naming, rows: seq<Row>, drafts: seq<Category>, catalogs: map<string, Catalog>, contexts: seq<CatalogContext>)
    requires CatalogIdsRoundTrip(n)
    requires AllAssociated(n, rows, drafts)
    requires CategoryStage(n, CatalogStage(n, ParentCatalogStage(n, drafts), catalogs).0, contexts).Success?
    ensures var r := CategoryStage(n, CatalogStage(n, ParentCatalogStage(n, drafts), catalogs).0, contexts).value.0;
      |r| == |drafts| && forall k :: 0 <= k < |r| ==> CatalogListsFrom(drafts[k], r[k], catalogs)
  {
    var flagged := ParentCatalogStage(n, drafts);
    var withCatalogs := CatalogStage(n, flagged, catalogs);
    CatalogStagePointwise(n, flagged, catalogs);
    LogStepsPointwise(withCatalogs.0, CategoryFn(n, contexts, withCatalogs.0));
    var r := CategoryStage(n, withCatalogs.0, contexts).value.0;
    forall k | 0 <= k < |drafts|
      ensures CatalogListsFrom(drafts[k], r[k], catalogs)
    {
      assert flagged[k] == ItemWithParentCatalogs(n, drafts[k]);
      CatalogListsOfDraft(n, rows, drafts[k], catalogs);
      CategoryLinksKeepCatalogs(n, contexts, withCatalogs.0, withCatalogs.0[k]);
    }
  }

  /** The category pass leaves both catalog lists as they were. */
  lemma CategoryLinksKeepCatalogs(n: Naming, contexts: seq<CatalogContext>, batch: seq<Category>, item: Category)
    requires ItemWithCategoryLinks(n, contexts, batch, item).Success?
    ensures var r := ItemWithCategoryLinks(n, contexts, batch, item).value.0;
      r.catalogToEntityList == item.catalogToEntityList && r.parentCatalogList == item.parentCatalogList
  {
  }

  /** Every category returned lists the catalog ids its draft's catalogs call for. */
  lemma TransformCatalogLists(n: Naming, rows: seq<Row>, catalogs: map<string, Catalog>,
                              contextsFor: seq<string> -> seq<CatalogContext>)
    requires CatalogIdsRoundTrip(n)
    requires Transform(n, rows, catalogs, contextsFor).Success?
    ensures var drafts := CategoryDrafts(n, rows).value;
      var r := Transform(n, rows, catalogs, contextsFor).value.0;
      |r| == |drafts| && forall k :: 0 <= k < |r| ==> CatalogListsFrom(drafts[k], r[k], catalogs)
  {
    var drafts := CategoryDrafts(n, rows).value;
    var origin := CategoryDraftsSpec(n, rows);
    var names := Linq.Distinct(Linq.SelectMany(ParentCatalogStage(n, drafts), CatalogNamesFn()));
    StagesCatalogLists(n, rows, drafts, catalogs, contextsFor(names));
  }
}
