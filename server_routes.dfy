/**
 * The server's API routes as operations on the stored document: the history,
 * the manual send (render and mail first, then record), the last settings, and
 * the automation flag.  These routes carry no authentication.
 */
module ServerRoutes {
  import opened Wrappers
  import opened ReceiptStore

  /** A route that answers with data or with status 500. */
  datatype Reply<T> = Ok(value: T) | ServerError

  /** `GET /history`: the receipts, or 500 when the document cannot be read. */
  function History(backend: Backend, d: Document): (r: Reply<seq<Receipt>>)
    ensures r.ServerError? <==> backend == ReadFails
    ensures r.Ok? ==> r.value == d.receipts
  {
    if backend == ReadFails then ServerError else Ok(d.receipts)
  }

  /** `GET /settings`: the last settings, `{}` when there are none or on a read error. */
  function GetSettings(backend: Backend, d: Document): (s: Settings)
    ensures s != EmptySettings ==> backend != ReadFails && d.settings == Some(s)
    ensures backend != ReadFails && d.settings.Some? ==> s == d.settings.value
  {
    if backend == ReadFails then EmptySettings else d.settings.GetOr(EmptySettings)
  }

  /** `GET /automation/status`: the stored flag, `{skipNext: false}` when absent or on a
      read error. */
  function GetAutomationStatus(backend: Backend, d: Document): (a: AutomationStatus)
    ensures a.skipNext <==> backend != ReadFails && SkipRequested(d)
  {
    if backend == ReadFails then AutomationStatus(false) else StatusOrDefault(d)
  }

  /** The body of `POST /receipts/send`. */
  datatype SendBody = SendBody(tenantName: string, email: string, address: string,
                               amount: string, period: string)

  /** `POST /receipts/send` on a document: the receipt and the new document, or 500 with
      the document as it was. */
  function SendReceipt(b: SendBody, reply: MailReply, backend: Backend, clock: Clock, d: Document)
    : (Reply<Receipt>, Document)
  {
    match reply
    case Threw => (ServerError, d)
    case Replied(success, id) =>
      if backend == ReadFails then (ServerError, d)
      else
        var r := Receipt(clock.id, clock.iso, b.tenantName, b.period, b.amount,
                         if success then Sent else Failed, id);
        var e := Prepend(r, d).(settings := Some(Settings(b.tenantName, b.email, b.address, b.amount)));
        if backend == WriteFails then (ServerError, d) else (Ok(r), e)
  }

  /** The route on the store: render and mail, then read, prepend, remember the settings
      and write. */
  method HandleSendReceipt(store: Store, b: SendBody, reply: MailReply, backend: Backend, clock: Clock)
    returns (r: Reply<Receipt>)
    modifies store
    ensures (r, store.Snapshot()) == SendReceipt(b, reply, backend, clock, old(store.Snapshot()))
  {
    if reply.Threw? {
      return ServerError;
    }
    var loaded := store.Load(backend);
    if loaded.None? {
      return ServerError;
    }
    var db := loaded.value;
    var receipt := Receipt(clock.id, clock.iso, b.tenantName, b.period, b.amount,
                           if reply.success then Sent else Failed, reply.id);
    db := Prepend(receipt, db);
    db := db.(settings := Some(Settings(b.tenantName, b.email, b.address, b.amount)));
    var saved := store.Save(db, backend);
    r := if saved then Ok(receipt) else ServerError;
  }

  /** `POST /automation/status` on a document: the echoed flag and the new document. */
  function SetAutomationStatus(skipNext: bool, backend: Backend, d: Document): (Reply<bool>, Document) {
    if backend != Available then (ServerError, d)
    else (Ok(skipNext), d.(automation := Some(AutomationStatus(skipNext))))
  }

  /** The route on the store. */
  method HandleSetAutomationStatus(store: Store, skipNext: bool, backend: Backend) returns (r: Reply<bool>)
    modifies store
    ensures (r, store.Snapshot()) == SetAutomationStatus(skipNext, backend, old(store.Snapshot()))
  {
    var loaded := store.Load(backend);
    if loaded.None? {
      return ServerError;
    }
    var db := loaded.value.(automation := Some(AutomationStatus(skipNext)));
    var saved := store.Save(db, backend);
    r := if saved then Ok(skipNext) else ServerError;
  }

  // ---------------------------------------------------------------- properties

  /** Rendering or mailing is done before the document is read: a throw there answers 500
      and leaves the document untouched, whatever the backend. */
  lemma SendFailureTouchesNothing(b: SendBody, backend: Backend, clock: Clock, d: Document)
    ensures SendReceipt(b, Threw, backend, clock, d) == (ServerError, d)
  {
  }

  /** A successful send puts one receipt built from the body first, "Sent" exactly when
      the mailer reported success, keeps the other receipts in order, replaces the settings
      by exactly the four fields of the body and keeps the automation flag. */
  lemma SendRecords(b: SendBody, reply: MailReply, backend: Backend, clock: Clock, d: Document)
    requires SendReceipt(b, reply, backend, clock, d).0.Ok?
    ensures var (r, e) := SendReceipt(b, reply, backend, clock, d);
            && reply.Replied? && backend == Available
            && e.receipts == [r.value] + d.receipts
            && (r.value.status == Sent <==> reply.success)
            && (r.value.status == Failed <==> !reply.success)
            && r.value.tenantName == b.tenantName && r.value.period == b.period
            && r.value.amount == b.amount && r.value.emailId == reply.id
            && e.settings == Some(Settings(b.tenantName, b.email, b.address, b.amount))
            && e.automation == d.automation
  {
  }

  /** After a successful send the settings route answers with the body's fields. */
  lemma SendThenSettings(b: SendBody, reply: MailReply, clock: Clock, d: Document)
    requires SendReceipt(b, reply, Available, clock, d).0.Ok?
    ensures GetSettings(Available, SendReceipt(b, reply, Available, clock, d).1)
            == Settings(b.tenantName, b.email, b.address, b.amount)
  {
  }

  /** Setting the flag replaces it by exactly the posted value, echoes it, and leaves the
      receipts and settings alone; the status route then answers with it. */
  lemma SetThenGet(skipNext: bool, d: Document)
    ensures var (r, e) := SetAutomationStatus(skipNext, Available, d);
            && r == Ok(skipNext) && e.automation == Some(AutomationStatus(skipNext))
            && e.receipts == d.receipts && e.settings == d.settings
            && GetAutomationStatus(Available, e) == AutomationStatus(skipNext)
  {
  }

  /** A store that cannot be read or written makes the flag route answer 500 and change
      nothing. */
  lemma SetFailureChangesNothing(skipNext: bool, backend: Backend, d: Document)
    requires backend != Available
    ensures SetAutomationStatus(skipNext, backend, d) == (ServerError, d)
  {
  }
}
