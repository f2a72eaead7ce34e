/** The parent/child edge the import creates or removes:
    `CatalogItemParentAssociationModel`, which extends
    `ParentAssociationModel` with the catalog the edge lives in and the
    parent's Sitecore id. Every field is a nullable string. */
module Associations {
  import opened Wrappers

  /** `ParentAssociationModel`: the child and the parent. */
  datatype ParentAssociation = ParentAssociation(itemId: Option<string>, parentId: Option<string>)

  /** `CatalogItemParentAssociationModel`. */
  datatype ParentEdge = ParentEdge(base: ParentAssociation, catalogId: Option<string>, parentSitecoreId: Option<string>)
  {
    function ItemId(): Option<string> { base.itemId }
    function ParentId(): Option<string> { base.parentId }
  }

  /** The parent an edge can be built from: a catalog or a category. */
  datatype ParentRef = ParentRef(id: string, sitecoreId: string)

  /** The parameterless constructor: nothing is set. */
  function NewEdge(): (e: ParentEdge)
    ensures e.ItemId().None? && e.ParentId().None?
    ensures e.catalogId.None? && e.parentSitecoreId.None?
  {
    ParentEdge(ParentAssociation(None, None), None, None)
  }

  /** The constructor taking the parent by id: the parent's Sitecore id stays unset. */
  function EdgeToId(itemId: string, catalogId: string, parentId: string): (e: ParentEdge)
    ensures e.ItemId() == Some(itemId) && e.catalogId == Some(catalogId)
    ensures e.ParentId() == Some(parentId)
    ensures e.parentSitecoreId.None?
  {
    ParentEdge(ParentAssociation(Some(itemId), Some(parentId)), Some(catalogId), None)
  }

  /** The constructor taking the parent entity: its id and its Sitecore id are copied. */
  function EdgeToEntity(itemId: string, catalogId: string, parent: ParentRef): (e: ParentEdge)
    ensures e.ItemId() == Some(itemId) && e.catalogId == Some(catalogId)
    ensures e.ParentId() == Some(parent.id)
    ensures e.parentSitecoreId == Some(parent.sitecoreId)
  {
    ParentEdge(ParentAssociation(Some(itemId), Some(parent.id)), Some(catalogId), Some(parent.sitecoreId))
  }

  /** The two argument constructors build the same edge except for the
      parent's Sitecore id, which only the entity constructor records; and
      the edge determines the arguments it was built from. */
  lemma EdgeConstructorsAgree(itemId: string, catalogId: string, parent: ParentRef)
    ensures EdgeToEntity(itemId, catalogId, parent)
         == EdgeToId(itemId, catalogId, parent.id).(parentSitecoreId := Some(parent.sitecoreId))
    ensures forall i, c, p :: EdgeToId(i, c, p) == EdgeToId(itemId, catalogId, parent.id)
              ==> i == itemId && c == catalogId && p == parent.id
  {
  }
}
