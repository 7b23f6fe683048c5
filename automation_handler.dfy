/**
 * The serverless automation-flag endpoint: read the document, then answer GET
 * with the stored flag and POST by replacing and saving it.
 */
module AutomationHandler {
  import opened Wrappers
  import opened ReceiptStore

  datatype Outcome =
    | Status(status: AutomationStatus)  // 200 with the flag
    | MethodNotAllowed                  // 405
    | StoreError                        // 500
  {
    function HttpStatus(): int {
      match this
      case Status(_) => 200
      case MethodNotAllowed => 405
      case StoreError => 500
    }
  }

  /** The handler on a document; `skipNext` is the posted flag. */
  function Run(verb: HttpMethod, skipNext: bool, backend: Backend, d: Document): (Outcome, Document) {
    if backend == ReadFails then (StoreError, d)
    else match verb
      case Get => (Status(StatusOrDefault(d)), d)
      case Post =>
        if backend == WriteFails then (StoreError, d)
        else (Status(AutomationStatus(skipNext)), d.(automation := Some(AutomationStatus(skipNext))))
      case _ => (MethodNotAllowed, d)
  }

  /** The handler on the store. */
  method Handle(store: Store, verb: HttpMethod, skipNext: bool, backend: Backend) returns (o: Outcome)
    modifies store
    ensures (o, store.Snapshot()) == Run(verb, skipNext, backend, old(store.Snapshot()))
  {
    var loaded := store.Load(backend);
    if loaded.None? {
      return StoreError;
    }
    var db := loaded.value;
    if verb == Get {
      return Status(StatusOrDefault(db));
    }
    if verb == Post {
      db := db.(automation := Some(AutomationStatus(skipNext)));
      var saved := store.Save(db, backend);
      return if saved then Status(db.automation.value) else StoreError;
    }
    o := MethodNotAllowed;
  }

  // ---------------------------------------------------------------- properties

  /** GET changes nothing and answers the stored flag, `{skipNext: false}` when absent. */
  lemma GetReadsOnly(skipNext: bool, d: Document)
    ensures var (o, e) := Run(Get, skipNext, Available, d);
            && e == d && o.Status?
            && (d.automation.Some? ==> o.status == d.automation.value)
            && (d.automation.None? ==> o.status == AutomationStatus(false))
  {
  }

  /** POST stores exactly the posted flag, answers with what it stored, and leaves the
      receipts and settings alone. */
  lemma PostReplacesAndEchoes(skipNext: bool, d: Document)
    ensures var (o, e) := Run(Post, skipNext, Available, d);
            && e.automation == Some(AutomationStatus(skipNext)) && o == Status(e.automation.value)
            && e.receipts == d.receipts && e.settings == d.settings
            && Run(Get, skipNext, Available, e).0 == o
  {
  }

  /** Posting the same flag twice leaves the same document as posting it once. */
  lemma PostIdempotent(skipNext: bool, backend: Backend, d: Document)
    ensures var e := Run(Post, skipNext, backend, d).1;
            Run(Post, skipNext, backend, e) == Run(Post, skipNext, backend, d)
  {
  }

  /** Any other method answers 405 without saving; a store failure answers 500 without
      saving. */
  lemma RejectionsChangeNothing(verb: HttpMethod, skipNext: bool, backend: Backend, d: Document)
    ensures verb != Get && verb != Post && backend != ReadFails ==> Run(verb, skipNext, backend, d) == (MethodNotAllowed, d)
    ensures Run(verb, skipNext, backend, d).0.HttpStatus() != 200 ==> Run(verb, skipNext, backend, d).1 == d
    ensures Run(verb, skipNext, backend, d).0.HttpStatus() == 500 <==>
            backend == ReadFails || (backend == WriteFails && verb == Post)
  {
  }
}
