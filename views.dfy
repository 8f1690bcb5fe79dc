/** What the page code raises while turning a loaded table into a chart: the
    database error of the read itself, a pandas `KeyError` for a column the
    loaded frame does not have, and an `IndexError` for a position past the end. */
module Views {
  import opened Common
  import opened Schema
  import opened TableStore

  datatype PageError = DbFailure(error: DbError) | KeyError(key: string) | IndexError

  /** `pd.read_sql_query("SELECT * FROM <name>")`. */
  function ReadFrame(t: Tables, name: string): (r: Result<Table, PageError>)
    ensures r.Ok? <==> name in t
    ensures r.Ok? ==> r.value == t[name]
    ensures r.Err? ==> r.error == DbFailure(NoSuchTable(name))
  {
    match LoadTable(t, name)
    case Ok(table) => Ok(table)
    case Err(e) => Err(DbFailure(e))
  }
}
