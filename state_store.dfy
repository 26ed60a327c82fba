/**
 * The choice of state store made once at startup: the durable store kept in
 * the file "default.db" when it can be opened, otherwise the in-memory
 * default store.  The stores' own get/set behaviour is not modelled; a store
 * is an opaque tagged value.
 */
module StateStore {

  const DefaultDbFile: string := "default.db"

  /** The store handed to the executor: the durable file store or the in-memory default. */
  datatype Store = Durable(file: string) | InMemory

  /** What opening the durable store at `DefaultDbFile` reported. */
  datatype OpenOutcome = Opened | OpenFailed(reason: string)

  /**
   * The store the process uses: the durable one exactly when opening it did
   * not report an error, the in-memory one exactly when it did.
   */
  function SelectStore(open: OpenOutcome): (s: Store)
    ensures s.InMemory? <==> open.OpenFailed?
    ensures s.Durable? <==> open.Opened?
    ensures s.Durable? ==> s.file == DefaultDbFile
  {
    match open
    case Opened => Durable(DefaultDbFile)
    case OpenFailed(_) => InMemory
  }
}
