/** What the import engine takes from its host: the flat records the ERP
    returns, the id and naming helpers of the commerce framework, the
    catalogs already in storage, and the failures and warnings a run can
    produce. The helpers are given as functions: their code is not part of
    this model, only how the engine uses them. */
module Host {
  import opened Wrappers

  /** One ERP record: column name to the text of its value. */
  type Row = map<string, string>

  /** Why a run stops. Each one is an exception in the engine. */
  datatype ImportError =
    | MissingColumn(column: string)              // the JSON indexer yields null and `.ToString()` throws
    | BadPrice(text: string)                     // `decimal.Parse` rejects the sales price
    | UnknownCategory(productId: string, categoryDisplayName: string)
    | NoCatalog(itemName: Option<string>)
    | CatalogContextMissing(catalogName: string)
    | BadConfiguration                           // a comparer configuration outside the enum
    | NullPrices                                 // the content hash walks a null price list

  /** A warning written to the log; the association it names is dropped. */
  datatype Warning =
    | CatalogNotFound(subject: string, catalogName: string)
    | CategoryNotFound(subject: string, categoryName: string)

  /** `rawLine[key].ToString()`: the column's text, or a failure when the
      record has no such column. */
  function Column(row: Row, key: string): (r: Result<string, ImportError>)
    ensures r.Success? <==> key in row
    ensures r.Success? ==> r.value == row[key]
    ensures r.Failure? ==> r.error == MissingColumn(key)
  {
    if key in row then Success(row[key]) else Failure(MissingColumn(key))
  }

  /** A catalog already in storage. */
  datatype Catalog = Catalog(id: string, name: string, sitecoreId: string)

  /** A price. */
  datatype Money = Money(currencyCode: string, amount: real)

  /** The commerce framework's helpers the transforms call. */
  datatype Naming = Naming(
    sellableItemId: string -> string,               // productId.ToEntityId<SellableItem>()
    catalogId: string -> string,                    // name.ToEntityId<Catalog>()
    isCatalogId: string -> bool,                    // id.IsEntityId<Catalog>()
    stripCatalogPrefix: string -> string,           // id.RemoveIdPrefix<Catalog>()
    categoryId: (string, string) -> string,         // name.ToCategoryId(catalogName)
    categoryFriendlyId: (string, string) -> string, // name.ToCategoryFriendlyId(catalogName)
    deterministicGuid: string -> string,            // GuidUtils.GetDeterministicGuidString
    parseDecimal: string -> Option<real>,           // decimal.Parse, None where it throws
    sellableItemsList: string,                      // CommerceEntity.ListName<SellableItem>()
    categoriesList: string,                         // CommerceEntity.ListName<Category>()
    catalogItemsList: string,                       // KnownCatalogListsPolicy.CatalogItems
    newImages: Option<seq<string>>)                 // the image list of a newly created ImagesComponent

  /** The currency every imported price carries. */
  const Usd: string := "USD"
}
