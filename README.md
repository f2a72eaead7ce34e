# Catalog import reconciliation, modelled in Dafny

This project models the catalog import of the D365 integration for
Sitecore Commerce: the two pipeline blocks that import sellable items and
categories from the ERP, the commands that turn ERP records into drafts,
the comparer that decides which sellable items are new or changed, and the
bulk commands that look up, persist and unlink entities.

A run of either block fetches the ERP records, transforms them into
drafts, looks every draft up in storage, and classifies the drafts:
- new: drafts that no stored entity matches by identity;
- changed: stored entities that no draft equals by content.

The changed entities get a copy of the import. The edges both kinds of
entity carry are then collected. The drafts lose their transient data.
Then comes one bulk persist, one association call and one bulk
disassociation. Any exception aborts the pipeline, and the block returns
null either way.

How the model is built:
- Drafts and entities are datatype values. Collections are sequences.
- The commands' loops are methods. Each method is proved to compute a
  specification function, and the properties of that function are proved
  as lemmas.
- `BulkCommands.CommerceContext` is a class. It holds the message buffer,
  the warnings logged, the calls made on storage and the abort flag. The
  bulk commands and the blocks update it and state its whole new state.
- `Linq.Except` models the hash-set walk of `Enumerable.Except`. It is
  proved equal to a set difference on any comparer whose hash agrees with
  its equality and whose equality is transitive.
- `Reconcile` is the part the two blocks share. It is generic over the
  entity kind.
- The sellable block classifies changed items with the content hash as
  written, which does not sort prices and images (see Findings). The
  corrected hash is modelled beside it, and the lemmas state where the two
  agree and where they part.
- The host's message buffer records the kind of every message a block
  adds (information or error) and what each call reports.
- Everything outside the core is a parameter: id formatting, GUIDs,
  decimal parsing, string and money hashing, the storage lookup, the copy
  command, the relationship type and the catalog context lookup.

Where the code and the written design disagree, the model follows the
code:
- Identity equality of sellable items compares product ids
  case-sensitively. The design says case-insensitive.
- Content equality sorts list tokens by a case-insensitive key, then
  compares them case-sensitively. So lists whose tokens differ only by case
  can compare unequal (`SellableComparer.CaseVariantTokensDiffer`). The
  design says they compare as unordered sets.
- The default catalog of an unassigned product is the hierarchy of the
  first category record. The design says it is configured.

## Model

| member | source | states |
|---|---|---|
| Associations.NewEdge | src/Feature/Inventory/engine/Models/CatalogItemParentAssociationModel.cs:10 | the parameterless constructor leaves item, parent, catalog and parent Sitecore id all null |
| Associations.EdgeToEntity | src/Feature/Inventory/engine/Models/CatalogItemParentAssociationModel.cs:12-18 | the entity constructor sets item id, catalog id, and copies the parent's id and Sitecore id |
| Associations.EdgeToId | src/Feature/Inventory/engine/Models/CatalogItemParentAssociationModel.cs:20-25 | the id constructor sets item id, catalog id and parent id and leaves the parent Sitecore id null |
| Associations.EdgeConstructorsAgree | src/Feature/Inventory/engine/Models/CatalogItemParentAssociationModel.cs:12-25 | the two constructors differ only in the parent Sitecore id, and an edge determines its constructor arguments |
| Host.Column | src/Feature/Inventory/engine/Commands/TransformImportToSellableItemsCommand.cs:59 | reading a column succeeds exactly when the record has it and yields its text; otherwise the import stops with a missing-column error |
| Entities.FindContext | src/Feature/Inventory/engine/Commands/TransformImportToSellableItemsCommand.cs:197 | `FirstOrDefault` by catalog name: a result is the first context with that name; none exactly when no context has it |
| Text.Split | src/Feature/Inventory/engine/Comparers/ImportSellableItemComparer.cs:57 | `Split('|')` yields at least one token |
| Text.JoinOrNull | src/Feature/Inventory/engine/Commands/TransformImportToSellableItemsCommand.cs:180 | the list field is null exactly for an empty list, and splitting a non-null one gives the tokens back |
| Text.SplitJoin | src/Feature/Inventory/engine/Commands/TransformImportToSellableItemsCommand.cs:180 | splitting a joined list of separator-free tokens gives the tokens back |
| Text.JoinSplit | src/Feature/Inventory/engine/Comparers/ImportSellableItemComparer.cs:57 | joining the tokens of any string gives the string back |
| Text.Fold | src/Feature/Inventory/engine/Comparers/ImportSellableItemComparer.cs:57 | the case-insensitive key has the length of the string |
| Text.SortPermutes | src/Feature/Inventory/engine/Comparers/ImportSellableItemComparer.cs:57 | `OrderBy` returns a permutation of its input |
| Text.SortSorted | src/Feature/Inventory/engine/Comparers/ImportSellableItemComparer.cs:57 | `OrderBy` returns its input ordered by the case-insensitive key |
| Text.SortIgnoresOrder | src/Feature/Inventory/engine/Comparers/ImportSellableItemComparer.cs:57 | two orderings of one multiset sort to the same sequence when no two elements differ solely by case |
| Linq.Distinct | src/Feature/Inventory/engine/Commands/TransformImportToSellableItemsCommand.cs:125 | `Distinct` keeps every value once and only values of its input, in the order of their first occurrences |
| Linq.FirstIndex | src/Feature/Inventory/engine/Commands/TransformImportToCategoryCommand.cs:49 | the position of the first element satisfying the predicate, or the length when none does |
| Linq.FirstWhere | src/Feature/Inventory/engine/Commands/TransformImportToCategoryCommand.cs:186 | `FirstOrDefault(predicate)`: a result is the first element satisfying the predicate; none exactly when no element does |
| Linq.Select | src/Feature/Inventory/engine/Commands/TransformImportToSellableItemsCommand.cs:125 | `Select` maps every element, in order, one for one |
| Linq.SelectManyMembers | src/Feature/Inventory/engine/Pipelines/Blocks/ImportSellableItemsFromD365Block.cs:48-49 | an edge is collected exactly when some item lists it |
| Linq.SelectManyAppend | src/Feature/Inventory/engine/Pipelines/Blocks/ImportSellableItemsFromD365Block.cs:48-49 | collecting over new then changed items is collecting over each, concatenated |
| Linq.WhereMembers | src/Feature/Inventory/engine/Commands/TransformImportToSellableItemsCommand.cs:160-178 | `Where` keeps exactly the elements satisfying the filter |
| Linq.BuildSetProbe | src/Feature/Inventory/engine/Pipelines/Blocks/ImportSellableItemsFromD365Block.cs:42 | probing the hash set built from `second` asks whether some element of `second` equals the probe |
| Linq.WalkIsSpec | src/Feature/Inventory/engine/Pipelines/Blocks/ImportSellableItemsFromD365Block.cs:42-43 | the hash-set walk of `Except` yields `ExceptSpec`, and every element of `first` is either yielded or matched |
| Linq.ExceptIsSpec | src/Feature/Inventory/engine/Pipelines/Blocks/ImportSellableItemsFromD365Block.cs:42-43 | with a comparer whose hash agrees with its equality and whose equality is transitive, `Except` keeps the first occurrence of each element of `first` equal to nothing in `second` or earlier, in order |
| Linq.ExceptSpecDistinct | src/Feature/Inventory/engine/Pipelines/Blocks/ImportSellableItemsFromD365Block.cs:42 | for inputs no two of which are equal, an element is kept exactly when it is in `first` and nothing in `second` equals it |
| Linq.ExceptSpecDrops | src/Feature/Inventory/engine/Pipelines/Blocks/ImportSellableItemsFromD365Block.cs:43 | an element some element of `second` equals is never kept |
| Linq.ExceptSpecKeptWitness | src/Feature/Inventory/engine/Pipelines/Blocks/ImportSellableItemsFromD365Block.cs:43 | everything kept is an element of `first` that passed the keep test |
| Linq.ExceptSpecEmptyWhenCovered | src/Feature/Inventory/engine/Pipelines/Blocks/ImportSellableItemsFromD365Block.cs:42-43 | when every element of `first` is matched in `second`, nothing is kept |
| Linq.ExceptSelfEmpty | src/Feature/Inventory/engine/Pipelines/Blocks/ImportSellableItemsFromD365Block.cs:42-43 | under a reflexive equality a sequence minus itself is empty, whatever the hash |
| Linq.ExceptSingleton | src/Feature/Inventory/engine/Pipelines/Blocks/ImportSellableItemsFromD365Block.cs:43 | one element minus one element keeps it exactly when the two fall in different hash buckets or are unequal |
| Folds.FoldFailureSticks | src/Feature/Inventory/engine/Commands/TransformImportToSellableItemsCommand.cs:44-47 | once a record throws, the whole transform fails with that exception |
| Folds.FoldErrors | src/Feature/Inventory/engine/Commands/TransformImportToSellableItemsCommand.cs:44-47 | the walk fails only with an error one of its steps can fail with |
| SellableTransform.DraftFromRow | src/Feature/Inventory/engine/Commands/TransformImportToSellableItemsCommand.cs:59-85 | a draft is built exactly when every read column is present and the price parses; it carries product id, entity id, friendly id, deterministic Sitecore id, name, display name, type of good, one USD list price, both list memberships and no transient data |
| SellableTransform.TransformCore | src/Feature/Inventory/engine/Commands/TransformImportToSellableItemsCommand.cs:57-89 | one record: the drafts unchanged if a draft with its id exists, else the record's draft appended |
| SellableTransform.CoreStepCases | src/Feature/Inventory/engine/Commands/TransformImportToSellableItemsCommand.cs:62-86 | a successful step either found the id among the drafts and changed nothing, or appended the record's draft under that id |
| SellableTransform.CoreDraftsDistinct | src/Feature/Inventory/engine/Commands/TransformImportToSellableItemsCommand.cs:44-47 | records sharing a product id yield one draft: draft ids are pairwise distinct |
| SellableTransform.CoreDraftsOrigins | src/Feature/Inventory/engine/Commands/TransformImportToSellableItemsCommand.cs:44-47 | each draft was built from the first record with its id, drafts follow record order, and every record's id has a draft |
| SellableTransform.CoreDraftsFresh | src/Feature/Inventory/engine/Commands/TransformImportToSellableItemsCommand.cs:57-89 | no draft carries transient data yet |
| SellableTransform.AssignItemCategories | src/Feature/Inventory/engine/Commands/TransformImportToSellableItemsCommand.cs:99-137 | the per-item loop computes the item with its category and catalog associations, or the exception |
| SellableTransform.TransformD365Category | src/Feature/Inventory/engine/Commands/TransformImportToSellableItemsCommand.cs:91-138 | the pass over all drafts equals the assignment specification, failing on the first item that throws |
| SellableTransform.UnassignedGetsDefaultCatalog | src/Feature/Inventory/engine/Commands/TransformImportToSellableItemsCommand.cs:130-134 | a product without assignment records gets the default catalog alone and no category association |
| SellableTransform.AssignedGetsOnePerRecord | src/Feature/Inventory/engine/Commands/TransformImportToSellableItemsCommand.cs:104-128 | one category association per assignment record, in order, then each distinct catalog name once, none a parent |
| SellableTransform.UnknownCategoryAborts | src/Feature/Inventory/engine/Commands/TransformImportToSellableItemsCommand.cs:109-113 | an assignment whose category display name matches no category record stops the import |
| SellableTransform.ItemWithCategoriesShape | src/Feature/Inventory/engine/Commands/TransformImportToSellableItemsCommand.cs:99-137 | the assignment pass keeps the core fields, adds at least one catalog association, none a parent, lists every category's catalog and adds no edges |
| SellableTransform.AssignedItemsShape | src/Feature/Inventory/engine/Commands/TransformImportToSellableItemsCommand.cs:99-137 | the assignment pass keeps the drafts one for one, in order |
| SellableTransform.ResolveCatalogsFilters | src/Feature/Inventory/engine/Commands/TransformImportToSellableItemsCommand.cs:160-178 | the catalog loop yields the Sitecore ids and components of exactly the resolvable associations, edges for the resolvable parents, a warning for every unresolvable one |
| SellableTransform.ResolveItemCatalogs | src/Feature/Inventory/engine/Commands/TransformImportToSellableItemsCommand.cs:153-181 | the per-item catalog loop computes the item with its catalog lists and warnings, failing when it has no catalog association |
| SellableTransform.TransformCatalog | src/Feature/Inventory/engine/Commands/TransformImportToSellableItemsCommand.cs:140-183 | the catalog pass over all items equals its specification |
| SellableTransform.CatalogStageOnAssigned | src/Feature/Inventory/engine/Commands/TransformImportToSellableItemsCommand.cs:151-182 | after the assignment pass the catalog pass never throws, adds no edge and leaves the parent catalog list null |
| SellableTransform.TransformNeverNoCatalog | src/Feature/Inventory/engine/Commands/TransformImportToSellableItemsCommand.cs:155-156 | the no-catalog exception can never be raised by the command |
| SellableTransform.ResolveItemCategories | src/Feature/Inventory/engine/Commands/TransformImportToSellableItemsCommand.cs:192-214 | the per-item category loop computes the item with its category ids, edges and warnings, or the missing-context exception |
| SellableTransform.TransformCategory | src/Feature/Inventory/engine/Commands/TransformImportToSellableItemsCommand.cs:185-216 | the category pass over all items equals its specification |
| SellableTransform.CategoryPassSpec | src/Feature/Inventory/engine/Commands/TransformImportToSellableItemsCommand.cs:195-212 | the category loop fails exactly when some association's catalog has no context; otherwise each association yields a category id with its matching edge or a warning |
| SellableTransform.CategoryOneFound | src/Feature/Inventory/engine/Commands/TransformImportToSellableItemsCommand.cs:197-211 | one association whose context exists adds the Sitecore id of the category its context holds under that name, with an edge from the item to it under the association's catalog, or else only a warning |
| SellableTransform.CategoryPassFilters | src/Feature/Inventory/engine/Commands/TransformImportToSellableItemsCommand.cs:195-212 | the ids and the edges are those of exactly the associations whose category the context holds, in order, and the warnings those of exactly the others |
| SellableTransform.CategoryLinksOfItem | src/Feature/Inventory/engine/Commands/TransformImportToSellableItemsCommand.cs:191-215 | an item's pass fails exactly when some association's catalog has no context; otherwise ParentCategoryList is the JoinOrNull of the found categories' Sitecore ids, one edge per found category is appended to the edges to create, and one warning is logged per category not found |
| SellableTransform.CategoryStageKeeps | src/Feature/Inventory/engine/Commands/TransformImportToSellableItemsCommand.cs:185-216 | the category pass keeps the items one for one with their core fields and parent catalog list |
| SellableTransform.EarlyFailures | src/Feature/Inventory/engine/Commands/TransformImportToSellableItemsCommand.cs:57-138 | the record and assignment passes never raise the no-catalog error |
| SellableTransform.TransformSucceeds | src/Feature/Inventory/engine/Commands/TransformImportToSellableItemsCommand.cs:197-198 | when the context command answers every name, the command succeeds exactly when the record and assignment passes do |
| SellableTransform.TransformResult | src/Feature/Inventory/engine/Commands/TransformImportToSellableItemsCommand.cs:37-55 | the command returns one item per draft with distinct ids, core fields as the record pass set them, and a null parent catalog list |
| SellableTransform.Process | src/Feature/Inventory/engine/Commands/TransformImportToSellableItemsCommand.cs:37-55 | the command's loops compute the transform specification |
| CategoryTransform.DraftFromRow | src/Feature/Inventory/engine/Commands/TransformImportToCategoryCommand.cs:45-63 | a draft is built exactly when catalog, name and display name columns are present; it carries the name, category id, friendly id, deterministic Sitecore id, display name, both memberships, null lists and no transient data |
| CategoryTransform.IndexOfId | src/Feature/Inventory/engine/Commands/TransformImportToCategoryCommand.cs:49 | `FirstOrDefault` by id: the first draft with that id, no earlier draft having it; none exactly when no draft has it |
| CategoryTransform.CoreRow | src/Feature/Inventory/engine/Commands/TransformImportToCategoryCommand.cs:43-67 | one record: the drafts, extended by the record's draft only when its id is new, and where the draft with its id sits |
| CategoryTransform.TransformCore | src/Feature/Inventory/engine/Commands/TransformImportToCategoryCommand.cs:43-67 | the method computes `CoreRow` |
| CategoryTransform.TransformParentAssociations | src/Feature/Inventory/engine/Commands/TransformImportToCategoryCommand.cs:69-94 | the method computes the draft with the record's parent category and catalog associations |
| CategoryTransform.AssociatedStep | src/Feature/Inventory/engine/Commands/TransformImportToCategoryCommand.cs:77-93 | a record adds its (catalog, parent category) pair with its edge, unless the parent is "0" or the pair is present, and its catalog once |
| CategoryTransform.AssociatedOther | src/Feature/Inventory/engine/Commands/TransformImportToCategoryCommand.cs:69-94 | a record with another id leaves a draft's associations as they were |
| CategoryTransform.AssociatedFresh | src/Feature/Inventory/engine/Commands/TransformImportToCategoryCommand.cs:52-63 | a fresh draft starts with no associations to carry |
| CategoryTransform.WithParentAssociationsKeeps | src/Feature/Inventory/engine/Commands/TransformImportToCategoryCommand.cs:69-94 | association handling never changes a draft's id or core fields |
| CategoryTransform.RowStepShape | src/Feature/Inventory/engine/Commands/TransformImportToCategoryCommand.cs:29-33 | one record either updates the draft with its id or appends a new draft with its associations |
| CategoryTransform.RowStepSplits | src/Feature/Inventory/engine/Commands/TransformImportToCategoryCommand.cs:31-32 | one record is `TransformCore` then `TransformParentAssociations` on its draft; either failure is the record's failure |
| CategoryTransform.RowStepIds | src/Feature/Inventory/engine/Commands/TransformImportToCategoryCommand.cs:29-33 | the record loop keeps draft ids distinct and covering every record, and earlier drafts' core fields |
| CategoryTransform.RowStepOrigins | src/Feature/Inventory/engine/Commands/TransformImportToCategoryCommand.cs:29-33 | the record each draft was built from survives one more record |
| CategoryTransform.RowStepAssociations | src/Feature/Inventory/engine/Commands/TransformImportToCategoryCommand.cs:29-33 | every draft keeps exactly the associations its records name after one more record |
| CategoryTransform.CategoryDraftsSpec | src/Feature/Inventory/engine/Commands/TransformImportToCategoryCommand.cs:27-33 | records sharing a category id merge into one draft built from the first; each carries every parent pair other than "0" once with its edge and every catalog once |
| CategoryTransform.RowStepErrors | src/Feature/Inventory/engine/Commands/TransformImportToCategoryCommand.cs:45-72 | a record fails only for a missing column |
| CategoryTransform.CategoryCatalogsListed | src/Feature/Inventory/engine/Commands/TransformImportToCategoryCommand.cs:69-94 | every parent category's catalog is among the draft's catalog associations |
| CategoryTransform.HasCategoryInRows | src/Feature/Inventory/engine/Commands/TransformImportToCategoryCommand.cs:103 | the parent-catalog test holds exactly when one of the draft's records in that catalog names a parent category |
| CategoryTransform.FlagParentsSpec | src/Feature/Inventory/engine/Commands/TransformImportToCategoryCommand.cs:101-108 | each catalog association is a parent exactly when no category association lies in its catalog; one self edge per such catalog, in order |
| CategoryTransform.TransformParentCatalogData | src/Feature/Inventory/engine/Commands/TransformImportToCategoryCommand.cs:96-112 | the method computes the parent-catalog pass |
| CategoryTransform.ParentCatalogsKeep | src/Feature/Inventory/engine/Commands/TransformImportToCategoryCommand.cs:96-112 | the parent-catalog pass keeps core fields, category associations and catalog names |
| CategoryTransform.CatalogIdsFilters | src/Feature/Inventory/engine/Commands/TransformImportToCategoryCommand.cs:129-141 | the first catalog loop yields the Sitecore ids of the resolvable associations and a warning for each other one |
| CategoryTransform.ParentCatalogOf | src/Feature/Inventory/engine/Commands/TransformImportToCategoryCommand.cs:144-157 | one edge adds at most one id or one warning |
| CategoryTransform.NoCatalogTargets | src/Feature/Inventory/engine/Commands/TransformImportToCategoryCommand.cs:146 | edges whose parent is not a catalog id add nothing |
| CategoryTransform.SelfEdgesToCatalogs | src/Feature/Inventory/engine/Commands/TransformImportToCategoryCommand.cs:144-152 | the self edges lead back to the Sitecore ids of their stored catalogs, in order |
| CategoryTransform.ResolveItemCatalogs | src/Feature/Inventory/engine/Commands/TransformImportToCategoryCommand.cs:127-162 | the per-category catalog loops compute the category with its catalog lists and warnings |
| CategoryTransform.TransformCatalog | src/Feature/Inventory/engine/Commands/TransformImportToCategoryCommand.cs:114-164 | the catalog pass over all categories equals its specification |
| CategoryTransform.CatalogStagePointwise | src/Feature/Inventory/engine/Commands/TransformImportToCategoryCommand.cs:125-163 | the catalog pass handles each category on its own, one for one |
| CategoryTransform.CatalogListsOfDraft | src/Feature/Inventory/engine/Commands/TransformImportToCategoryCommand.cs:160-162 | the catalog list joins the stored catalogs' Sitecore ids; the parent catalog list those of stored catalogs holding none of its parent categories |
| CategoryTransform.TransformCatalogLists | src/Feature/Inventory/engine/Commands/TransformImportToCategoryCommand.cs:160-162 | every returned category carries those two lists for its draft |
| CategoryTransform.FindByName | src/Feature/Inventory/engine/Commands/TransformImportToCategoryCommand.cs:186 | `FirstOrDefault` by name among this import's categories: the first one with the name, whatever its catalog; none exactly when no category has the name |
| CategoryTransform.CategoryLookupOrder | src/Feature/Inventory/engine/Commands/TransformImportToCategoryCommand.cs:181-198 | a stored category wins over one of this import with the same name; failing it, the first category of this import with the name gives the id and the edge; failing both, a warning and no id |
| CategoryTransform.BatchFallbackCrossesCatalogs | src/Feature/Inventory/engine/Commands/TransformImportToCategoryCommand.cs:186 | when the first category of this import with the name lies in another catalog than a later one in the association's own catalog, the edge goes to the first one, not to the own-catalog category |
| CategoryTransform.CategoryOneShape | src/Feature/Inventory/engine/Commands/TransformImportToCategoryCommand.cs:178-198 | one association fails exactly on a missing catalog context, and otherwise adds one id with its matching edge, or one warning |
| CategoryTransform.ResolveItemCategories | src/Feature/Inventory/engine/Commands/TransformImportToCategoryCommand.cs:173-202 | the per-category loop computes the category with its parent category ids, edges and warnings, or the missing-context exception |
| CategoryTransform.TransformCategory | src/Feature/Inventory/engine/Commands/TransformImportToCategoryCommand.cs:166-204 | the category pass over all categories equals its specification |
| CategoryTransform.CategoryPassSpec | src/Feature/Inventory/engine/Commands/TransformImportToCategoryCommand.cs:176-199 | the category loop fails exactly when some association's catalog has no context; otherwise each association yields an id with its edge or a warning |
| CategoryTransform.CategoryOneFound | src/Feature/Inventory/engine/Commands/TransformImportToCategoryCommand.cs:181-197 | one association whose context exists adds the Sitecore id of the category found, stored or of this import, with an edge to it, or else only a warning |
| CategoryTransform.CategoryPassFilters | src/Feature/Inventory/engine/Commands/TransformImportToCategoryCommand.cs:176-199 | the ids and the edges are those of exactly the associations whose category is found, stored first and then in this import, in order, and the warnings those of exactly the others |
| CategoryTransform.CategoryLinksOfItem | src/Feature/Inventory/engine/Commands/TransformImportToCategoryCommand.cs:170-202 | a category's pass fails exactly when some association's catalog has no context; otherwise ParentCategoryList is the JoinOrNull of the found categories' Sitecore ids, one edge per found category is appended to the edges to create, and one warning is logged per category not found |
| CategoryTransform.StagesKeepCore | src/Feature/Inventory/engine/Commands/TransformImportToCategoryCommand.cs:35-37 | the three passes keep every draft, in order, with its core fields |
| CategoryTransform.TransformSucceeds | src/Feature/Inventory/engine/Commands/TransformImportToCategoryCommand.cs:178-179 | when the context command answers every name, the command succeeds exactly when every record has its columns |
| CategoryTransform.TransformFailures | src/Feature/Inventory/engine/Commands/TransformImportToCategoryCommand.cs:23-41 | the command stops only for a missing column or, after the records, a missing catalog context |
| CategoryTransform.TransformResult | src/Feature/Inventory/engine/Commands/TransformImportToCategoryCommand.cs:23-41 | one category per id, every record's id among them, each with the core fields of the first record with its id |
| CategoryTransform.Process | src/Feature/Inventory/engine/Commands/TransformImportToCategoryCommand.cs:23-41 | the command's loops compute the transform specification |
| SellableComparer.Equals | src/Feature/Inventory/engine/Comparers/ImportSellableItemComparer.cs:21-38 | null is equal to nothing; by product id: equal iff product ids match; by import data: iff content-equal; an unknown configuration throws |
| SellableComparer.ImportDataEquivalence | src/Feature/Inventory/engine/Comparers/ImportSellableItemComparer.cs:30-33 | content equality is reflexive, symmetric and transitive given those laws of the money comparer |
| SellableComparer.ImportDataImpliesProductId | src/Feature/Inventory/engine/Comparers/ImportSellableItemComparer.cs:42 | content-equal items have the same product id |
| SellableComparer.StringListEqualityIsSameTokens | src/Feature/Inventory/engine/Comparers/ImportSellableItemComparer.cs:53-58 | two lists with no case-variant tokens are equal exactly when they hold the same tokens in any order |
| SellableComparer.ImagesEqualityIsSameImages | src/Feature/Inventory/engine/Comparers/ImportSellableItemComparer.cs:69-76 | two image lists with no case-variant images are equal exactly when they hold the same images in any order |
| SellableComparer.CaseVariantTokensDiffer | src/Feature/Inventory/engine/Comparers/ImportSellableItemComparer.cs:57 | "a|A" and "A|a" hold the same tokens yet compare unequal |
| SellableComparer.CatalogTokenOrderIgnored | src/Feature/Inventory/engine/Comparers/ImportSellableItemComparer.cs:49 | reordering parent catalog tokens changes neither equality nor either hash |
| SellableComparer.ImageOrderIgnored | src/Feature/Inventory/engine/Comparers/ImportSellableItemComparer.cs:75 | reordering images changes neither equality nor the corrected hash |
| SellableComparer.PriceOrderIgnored | src/Feature/Inventory/engine/Comparers/ImportSellableItemComparer.cs:66 | reordering prices changes neither equality nor the corrected hash |
| SellableComparer.Wrap32 | src/Feature/Inventory/engine/Comparers/ImportSellableItemComparer.cs:83 | `unchecked` arithmetic: the result is a 32-bit value, equal to the input when it fits |
| SellableComparer.MixEach | src/Feature/Inventory/engine/Comparers/ImportSellableItemComparer.cs:101 | one `ForEach` folds `hash * 23 + h` over the elements, in order |
| SellableComparer.MixFields | src/Feature/Inventory/engine/Comparers/ImportSellableItemComparer.cs:94-100 | the seven nullable fields are mixed in source order, null ones skipped |
| SellableComparer.GetHashCode | src/Feature/Inventory/engine/Comparers/ImportSellableItemComparer.cs:78-113 | the method computes the hash as written, including its null and unknown-configuration cases |
| SellableComparer.SameProductSameHash | src/Feature/Inventory/engine/Comparers/ImportSellableItemComparer.cs:89-91 | same product id, same identity hash |
| SellableComparer.AsWrittenHashSeesImageOrder | src/Feature/Inventory/engine/Comparers/ImportSellableItemComparer.cs:103-104 | two content-equal items with images in opposite order hash differently as written |
| SellableComparer.EqualItemsHashAlike | src/Feature/Inventory/engine/Comparers/ImportSellableItemComparer.cs:78-113 | with prices and images sorted before hashing, items `Equals` calls equal hash alike under either configuration |
| SellableComparer.ProductIdComparerLaws | src/Feature/Inventory/engine/Comparers/ImportSellableItemComparer.cs:27-28 | the identity comparer keeps the hash contract and is transitive |
| SellableComparer.ImportDataComparerLaws | src/Feature/Inventory/engine/Comparers/ImportSellableItemComparer.cs:30-33 | the content comparer with the corrected hash keeps the hash contract and is transitive |
| SellableComparer.AsWrittenDataComparer | src/Feature/Inventory/engine/Comparers/ImportSellableItemComparer.cs:78-113 | the comparer the block builds: its equality is `Equals` under the import-data configuration, and its hash is `GetHashCode` as written wherever that does not throw |
| SellableComparer.ImportDataComparer | src/Feature/Inventory/engine/Comparers/ImportSellableItemComparer.cs:21-38 | the corrected comparer: the same equality as the block's, with the corrected hash wherever that does not throw |
| SellableComparer.AsWrittenConsistentOnSorted | src/Feature/Inventory/engine/Comparers/ImportSellableItemComparer.cs:101-104 | on items listing prices and images in sorted order the hash as written equals the corrected one and keeps the hash contract |
| SellableComparer.AsWrittenExceptOnSorted | src/Feature/Inventory/engine/Pipelines/Blocks/ImportSellableItemsFromD365Block.cs:43 | on such items `Except` gives the same result with either hash |
| BulkCommands.GetEntityBulk | src/Feature/Inventory/engine/Commands/GetEntityBulkCommand.cs:14-28 | the returned items are the found entities of the items, in order; one lookup per item; nothing else changes |
| BulkCommands.LookupEffectsShape | src/Feature/Inventory/engine/Commands/GetEntityBulkCommand.cs:19-23 | exactly one lookup per item, by its id, in input order |
| BulkCommands.FoundOrder | src/Feature/Inventory/engine/Commands/GetEntityBulkCommand.cs:18-27 | at most one entity per item, in item order, and every item whose lookup found something contributes |
| BulkCommands.PersistEntityBulk | src/Feature/Inventory/engine/Commands/PersistEntityBulkCommand.cs:14-35 | returns true; the calls are a clear then a persisting transaction per item; log and abort flag untouched |
| BulkCommands.PersistEffectsShape | src/Feature/Inventory/engine/Commands/PersistEntityBulkCommand.cs:20-29 | every item is persisted once, in order, each in its own transaction after a clear |
| BulkCommands.PersistEffectsKinds | src/Feature/Inventory/engine/Commands/PersistEntityBulkCommand.cs:20-29 | a bulk persist makes only clears and persisting transactions |
| BulkCommands.LastTransactionMessages | src/Feature/Inventory/engine/Commands/PersistEntityBulkCommand.cs:22 | after persisting at least one item, only the last transaction's messages remain |
| BulkCommands.DisassociateToParentBulk | src/Feature/Inventory/engine/Commands/DisassociateToParentBulkCommand.cs:14-29 | returns true; the calls are a clear then a deleting transaction per edge; log and abort flag untouched |
| BulkCommands.DisassociateEffectsKinds | src/Feature/Inventory/engine/Commands/DisassociateToParentBulkCommand.cs:18-27 | a bulk disassociation makes only clears and deleting transactions |
| BulkCommands.DisassociateEffectsShape | src/Feature/Inventory/engine/Commands/DisassociateToParentBulkCommand.cs:22-26 | each delete names the edge's own parent and item under the relationship type of that pair |
| Reconcile.RemoveTransientData | src/Feature/Inventory/engine/Pipelines/Blocks/ImportSellableItemsFromD365Block.cs:70-77 | every item loses its transient data; items without any are untouched |
| Reconcile.Decide | src/Feature/Inventory/engine/Pipelines/Blocks/ImportSellableItemsFromD365Block.cs:42-51 | the plan is new items by identity, changed items by content, copies, collected edges and the items to persist |
| Reconcile.Apply | src/Feature/Inventory/engine/Pipelines/Blocks/ImportSellableItemsFromD365Block.cs:53-55 | the calls are the bulk persist, then one association call, then the bulk disassociation |
| Reconcile.Reconcile | src/Feature/Inventory/engine/Pipelines/Blocks/ImportSellableItemsFromD365Block.cs:40-65 | lookups first; an exception while hashing stops before any write; otherwise the plan is applied |
| Reconcile.FirstFaultFound | src/Feature/Inventory/engine/Pipelines/Blocks/ImportSellableItemsFromD365Block.cs:57-65 | no exception exactly when no item faults, and a raised exception is some item's |
| Reconcile.NewItemsAreUnmatched | src/Feature/Inventory/engine/Pipelines/Blocks/ImportSellableItemsFromD365Block.cs:42 | with an identity comparer keeping its laws, an item is new exactly when it is imported and matches no stored entity |
| Reconcile.ChangedItemsAreUnmatched | src/Feature/Inventory/engine/Pipelines/Blocks/ImportSellableItemsFromD365Block.cs:43 | a changed entity is stored and equal by content to no draft; one some draft equals is never changed; no two changed ones are equal |
| Reconcile.ExceptSpecUnrelated | src/Feature/Inventory/engine/Pipelines/Blocks/ImportSellableItemsFromD365Block.cs:43 | the kept elements are pairwise unequal under a transitive equality |
| Reconcile.InSyncNothingToDo | src/Feature/Inventory/engine/Pipelines/Blocks/ImportSellableItemsFromD365Block.cs:42-55 | when storage matches every draft by identity and every stored entity by content, nothing is new, changed, persisted, linked or unlinked |
| Reconcile.EdgesCollected | src/Feature/Inventory/engine/Pipelines/Blocks/ImportSellableItemsFromD365Block.cs:47-49 | the edges to create and to remove are those listed by new then changed items; an edge is collected exactly when one of them lists it |
| Reconcile.PersistedItems | src/Feature/Inventory/engine/Pipelines/Blocks/ImportSellableItemsFromD365Block.cs:45-53 | new items are persisted without transient data; changed ones as copied, with the transient policy attached |
| Reconcile.TransformedOutcome | src/Feature/Inventory/engine/Pipelines/Blocks/ImportSellableItemsFromD365Block.cs:38-64 | once the transform has succeeded, a run aborts with exactly the first fault of its drafts and stored items; an aborted run makes only lookups and messages and ends with the error message; a run without fault adds no error message |
| Reconcile.ApplyOrder | src/Feature/Inventory/engine/Pipelines/Blocks/ImportSellableItemsFromD365Block.cs:53-55 | every persist precedes the association call, which precedes every removal |
| Reconcile.FaultWritesNothing | src/Feature/Inventory/engine/Pipelines/Blocks/ImportSellableItemsFromD365Block.cs:57-65 | a run stopped by an exception makes only lookups |
| Reconcile.RerunNothingToDo | src/Feature/Inventory/engine/Pipelines/Blocks/ImportSellableItemsFromD365Block.cs:42-55 | with reflexive comparers, whatever their hashes, a rerun whose lookups return the drafts finds nothing new or changed and writes nothing |
| Reconcile.NoErrorMessage | src/Feature/Inventory/engine/Pipelines/Blocks/ImportSellableItemsFromD365Block.cs:40-55 | the reconciliation itself adds no message |
| Reconcile.ReportError | src/Feature/Inventory/engine/Pipelines/Blocks/ImportSellableItemsFromD365Block.cs:57-64 | an exception adds one error message and aborts the pipeline with it; otherwise nothing changes |
| Reconcile.ReconcileReported | src/Feature/Inventory/engine/Pipelines/Blocks/ImportSellableItemsFromD365Block.cs:38-64 | the second information message, the reconciliation, then the error message and abort when it threw |
| Reconcile.AfterTransform | src/Feature/Inventory/engine/Pipelines/Blocks/ImportSellableItemsFromD365Block.cs:37-64 | after the transform: its exception is reported at once; otherwise its warnings are logged and the reconciliation runs and is reported |
| SellableImport.SellableKindLawful | src/Feature/Inventory/engine/Pipelines/Blocks/ImportSellableItemsFromD365Block.cs:74-75 | removing the transient policy leaves an item without one |
| SellableImport.Run | src/Feature/Inventory/engine/Pipelines/Blocks/ImportSellableItemsFromD365Block.cs:27-68 | returns null; logs the warnings; adds the information messages at lines 35 and 38 and the error message of the `catch`; makes the calls of the run with the comparers the block builds, hash as written; aborts with the exception raised, if any |
| SellableImport.TransformedProductsDistinct | src/Feature/Inventory/engine/Commands/TransformImportToSellableItemsCommand.cs:57-89 | the transformed items have product ids, one price each, the new images component's list, and product ids pairwise distinct |
| SellableImport.NewItemsByProductId | src/Feature/Inventory/engine/Pipelines/Blocks/ImportSellableItemsFromD365Block.cs:42 | a draft is new exactly when no stored item has its product id |
| SellableImport.ContentEqualInNeither | src/Feature/Inventory/engine/Pipelines/Blocks/ImportSellableItemsFromD365Block.cs:42-43 | a draft and a stored item equal by content are neither new nor changed: always with the corrected hash, and with the block's hash when every item lists prices and images sorted |
| SellableImport.DraftsListedSorted | src/Feature/Inventory/engine/Commands/TransformImportToSellableItemsCommand.cs:57-89 | every draft lists its prices and images sorted when the new images list is sorted |
| SellableImport.ReorderedImagesCountAsChanged | src/Feature/Inventory/engine/Pipelines/Blocks/ImportSellableItemsFromD365Block.cs:42-53 | a stored item equal by content to the draft but with its two images reversed is classified as changed and persisted by the block, and as neither with the corrected hash |
| SellableImport.RerunNothingToDo | src/Feature/Inventory/engine/Pipelines/Blocks/ImportSellableItemsFromD365Block.cs:42-55 | rerunning an import the store holds makes no writes, with the block's own comparers |
| SellableImport.RunAborts | src/Feature/Inventory/engine/Pipelines/Blocks/ImportSellableItemsFromD365Block.cs:57-65 | a transform exception leaves the information message and the error message; after it, a run aborts exactly when some draft or stored item has a null price list, then makes only lookups and messages and ends with the error message; a run without exception adds no error message |
| SellableImport.OutcomeAborts | src/Feature/Inventory/engine/Pipelines/Blocks/ImportSellableItemsFromD365Block.cs:35-65 | the same for any transform result: an exception leaves the two messages and the transform's error; otherwise a run aborts exactly when some draft or stored item has a null price list, with NullPrices, ending with the error message |
| CategoryImport.CategoryKindLawful | src/Feature/Inventory/engine/Pipelines/Blocks/ImportCategoriesFromD365Block.cs:72-73 | removing the transient policy leaves a category without one |
| CategoryImport.Run | src/Feature/Inventory/engine/Pipelines/Blocks/ImportCategoriesFromD365Block.cs:24-66 | returns null; logs the warnings; adds the information messages at lines 32 and 35 and the error message of the `catch`; makes the calls of the run; aborts with the exception raised, if any |
| CategoryImport.NewCategoriesById | src/Feature/Inventory/engine/Pipelines/Blocks/ImportCategoriesFromD365Block.cs:39 | with a comparer matching by id, a draft is new exactly when no stored category has its id |
| CategoryImport.RunAborts | src/Feature/Inventory/engine/Pipelines/Blocks/ImportCategoriesFromD365Block.cs:55-63 | a run aborts exactly when the transform throws, and then makes no call but the information and error messages; otherwise it adds no error message |
| CategoryImport.RerunNothingToDo | src/Feature/Inventory/engine/Pipelines/Blocks/ImportCategoriesFromD365Block.cs:39-52 | rerunning an import the store holds makes no writes, for any reflexive comparers |

## Left out

- Text of info and error messages: the model records each message's result code, not its text, and the messages of the host's own pipelines through a `report` function on each call.
- Warnings logged before an exception: a run that throws logs no warnings in the model, because the transform returns them only on success.
- ERP fetches, `GetCatalogsCommand`, `GetCatalogContextCommand`, the find, persist, association and relationship pipelines, and the copy commands are not part of this model. They are parameters.
- An empty ERP response throws inside the connection policy, which is not part of this model. The blocks therefore require non-empty record lists.
- `ToDictionary` on catalogs throwing for duplicate names: catalogs are a map keyed by name.
- A failing `PerformTransaction`: every transaction is recorded as made.
- Asynchrony: every awaited call is sequential. The category block's un-awaited copy command is modelled as completed before the edges are collected.
- `ImportCategoryComparer` is not part of this model. The category block takes its two configurations as comparers, assumes they never throw, and its lemmas state the laws they need.
- `Union` of new and changed items is modelled as concatenation. The union would also drop a changed item equal, by default reference equality, to a new one; the two lists come from disjoint sources.
- Aliasing: `RemoveTransientData` on the import drafts reaches the new items, which are the same objects. The model strips the new items directly. Changed items are stored entities and keep their transient policy when persisted.
- Case-insensitive ordering covers ASCII letters only (`Text.Fold`). Culture-aware case mapping of other letters is not modelled.
- `Text.SortSorted`: ordinal order is taken over Unicode scalar values, while .NET's `OrdinalIgnoreCase` compares UTF-16 code units; the two orders differ between supplementary-plane characters and U+E000 to U+FFFF.
- `BulkCommands.PersistEntityBulk`: information-level log lines, such as the "Called" and "Completed" lines of PersistEntityBulkCommand.cs:18 and :31, are not recorded; the modelled log holds warnings only.
- Reference equality of entities and null elements inside lists: drafts are values, and list elements are never null.
- `SellableComparer.GetHashCode`: the hash of a null item, `base.GetHashCode()`, is the comparer object's own hash. It is a parameter.
- `SellableImport.Run`: the information message the sellable transform adds for every category assignment (TransformImportToSellableItemsCommand.cs:122) is not in the modelled message buffer; the console line beside it is left out as I/O.
- `CategoryImport.Run`: message text, such as the record and category counts of lines 32 and 35, is not modelled; each message is recorded by its result code only.
- `SellableImport.ContentEqualInNeither`: with the block's own hash the property is proved only for items listing their prices and images in sorted order, because it fails otherwise (`SellableImport.ReorderedImagesCountAsChanged`).
- `SellableImport.RunAborts`: only the price-list exception of the content hash is modelled after the transform. Host exceptions from storage calls are left out.

## Findings

| source | as written | input that shows it | evidently intended | confidence | as-written member | corrected member |
|---|---|---|---|---|---|---|
| src/Feature/Inventory/engine/Comparers/ImportSellableItemComparer.cs:103-104 | the content hash folds prices and images in stored order, while `Equals` compares them sorted; the block then counts a stored item as changed when it is equal to its draft but lists its images in another order (`SellableImport.ReorderedImagesCountAsChanged`) | two items equal in every field, one with images ["a", "bb"] and the other with ["bb", "a"] | items `Equals` calls equal have equal hashes, so prices and images are sorted before hashing | not executed | SellableComparer.AsWrittenHashSeesImageOrder | SellableComparer.EqualItemsHashAlike |
