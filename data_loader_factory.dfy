/** `DataLoaderFactory.get_data_loader`: the loader class for a file type, looked up case-insensitively. */
module DataLoaderFactory {
  import opened Wrappers
  import opened Text
  import opened Registry

  /** The two loader classes; each is built without arguments. */
  datatype Loader = CSVLoader | JSONLoader

  /** The class-level `_loaders` table. */
  const Loaders: Table<Loader> := [("csv", CSVLoader), ("json", JSONLoader)]

  function GetDataLoader(fileType: string): (r: Result<Loader, string>)
    ensures Lower(fileType) == "csv" ==> r == Success(CSVLoader)
    ensures Lower(fileType) == "json" ==> r == Success(JSONLoader)
    ensures Lower(fileType) !in {"csv", "json"} ==>
      r == Failure("Unsupported file type: " + Lower(fileType) + ". Supported types: " + "['csv', 'json']")
  {
    var key := Lower(fileType);
    assert Keys(Loaders) == ["csv", "json"];
    assert QuotedItems(["json"]) == "'json'";
    assert ListRepr(Keys(Loaders)) == "['csv', 'json']";
    match Get(Loaders, key)
    case Some(loader) => Success(loader)
    case None => Failure("Unsupported file type: " + key + ". Supported types: " + ListRepr(Keys(Loaders)))
  }

  /** Two spellings that lower-case alike get the same answer, the error message included. */
  lemma GetDataLoaderCaseInsensitive(a: string, b: string)
    requires Lower(a) == Lower(b)
    ensures GetDataLoader(a) == GetDataLoader(b)
  {
  }
}
