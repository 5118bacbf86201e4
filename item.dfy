/** The inventory record read from one spreadsheet row. Every field is optional,
    as in the source, where each is a nullable property. */
module Items {
  import opened Util

  datatype Item = Item(
    number: Option<int>,
    name: Option<string>,
    photos: Option<string>,
    category: Option<string>,
    createdBy: Option<string>,
    createdYear: Option<string>,
    createdPlace: Option<string>,
    stamp: Option<string>,
    provenance: Option<string>,
    currentOwner: Option<string>)

  /** `new Item()`: every field null. */
  const EmptyItem: Item := Item(None, None, None, None, None, None, None, None, None, None)
}
