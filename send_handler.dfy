/**
 * The serverless manual send: authentication, method and credential gates, render
 * and mail, then read the document and put a "Sent" receipt first.  There is no
 * skip flag and no duplicate check.
 */
module SendHandler {
  import opened Wrappers
  import opened JsText
  import opened ReceiptStore

  /** The JSON body. */
  datatype Body = Body(email: string, tenantName: string, address: string, amount: string, period: string)

  /** One request; `authenticated` is the session check, the credentials come from the
      environment. */
  datatype Request = Request(authenticated: bool, verb: HttpMethod, emailUser: string, emailPass: string,
                             body: Body, mail: MailResult, backend: Backend, clock: Clock)

  datatype Outcome =
    | Unauthorized                    // 401
    | MethodNotAllowed                // 405
    | ConfigError                     // 500: credentials missing, nothing done
    | SendError                       // 500: the mailer threw, the document was not read
    | UnrecordedAfterSend(mail: Mail) // 500: the mail went out, the document could not be read or written
    | Recorded(receipt: Receipt, mail: Mail)
  {
    function HttpStatus(): int {
      match this
      case Unauthorized => 401
      case MethodNotAllowed => 405
      case Recorded(_, _) => 200
      case _ => 500
    }
  }

  /** The handler on a document. */
  function Run(q: Request, d: Document): (Outcome, Document) {
    var b := q.body;
    if !q.authenticated then (Unauthorized, d)
    else if q.verb != Post then (MethodNotAllowed, d)
    else if q.emailUser == [] || q.emailPass == [] then (ConfigError, d)
    else match q.mail
      case MailThrew => (SendError, d)
      case Accepted(id) =>
        var m := MailFor(b.email, b.period);
        if q.backend != Available then (UnrecordedAfterSend(m), d)
        else
          var r := Receipt(q.clock.id, q.clock.iso, b.tenantName, b.period, b.amount, Sent, id);
          (Recorded(r, m), Prepend(r, d))
  }

  /** The handler on the store. */
  method Handle(store: Store, q: Request) returns (o: Outcome)
    modifies store
    ensures (o, store.Snapshot()) == Run(q, old(store.Snapshot()))
  {
    var b := q.body;
    if !q.authenticated {
      return Unauthorized;
    }
    if q.verb != Post {
      return MethodNotAllowed;
    }
    if q.emailUser == [] || q.emailPass == [] {
      return ConfigError;
    }
    if q.mail.MailThrew? {
      return SendError;
    }
    var m := MailFor(b.email, b.period);
    var loaded := store.Load(q.backend);
    if loaded.None? {
      return UnrecordedAfterSend(m);
    }
    var r := Receipt(q.clock.id, q.clock.iso, b.tenantName, b.period, b.amount, Sent, q.mail.messageId);
    var db := Prepend(r, loaded.value);
    var saved := store.Save(db, q.backend);
    o := if saved then Recorded(r, m) else UnrecordedAfterSend(m);
  }

  // ---------------------------------------------------------------- properties

  /** The gates in their order: 401 before anything, then 405, then 500 for missing
      credentials; each leaves the document as it was and sends nothing. */
  lemma GateOrder(q: Request, d: Document)
    ensures !q.authenticated ==> Run(q, d) == (Unauthorized, d)
    ensures q.authenticated && q.verb != Post ==> Run(q, d) == (MethodNotAllowed, d)
    ensures q.authenticated && q.verb == Post && (q.emailUser == [] || q.emailPass == [])
            ==> Run(q, d) == (ConfigError, d)
    ensures Run(q, d).0.HttpStatus() == 401 <==> !q.authenticated
  {
  }

  /** A throwing mailer answers 500 and the document is neither read nor written. */
  lemma MailThrowNoStore(q: Request, d: Document)
    requires q.authenticated && q.verb == Post && q.emailUser != [] && q.emailPass != []
    requires q.mail == MailThrew
    ensures Run(q, d) == (SendError, d) && SendError.HttpStatus() == 500
    ensures forall backend: Backend :: Run(q.(backend := backend), d) == Run(q, d)
  {
  }

  /** On success one "Sent" receipt carrying the body's tenant name, period and amount and
      the message id is put first, and nothing else in the document changes; the
      attachment name has no white space. */
  lemma Records(q: Request, d: Document)
    requires Run(q, d).0.Recorded?
    ensures var (o, e) := Run(q, d);
            && q.mail.Accepted?
            && e.receipts == [o.receipt] + d.receipts
            && e.automation == d.automation && e.settings == d.settings
            && o.receipt.status == Sent && o.receipt.tenantName == q.body.tenantName
            && o.receipt.period == q.body.period && o.receipt.amount == q.body.amount
            && o.receipt.emailId == q.mail.messageId
            && o.mail.to == q.body.email
            && forall i :: 0 <= i < |o.mail.attachment| ==> !IsSpace(o.mail.attachment[i])
  {
    AttachmentNameHasNoSpace(q.body.period);
  }

  /** The same request twice records two receipts with the same contents. */
  lemma {:induction false} RepeatAppends(q: Request, d: Document, clock2: Clock)
    requires Run(q, d).0.Recorded?
    ensures var e1 := Run(q, d).1;
            var (o2, e2) := Run(q.(clock := clock2), e1);
            && o2.Recorded? && |e2.receipts| == |d.receipts| + 2
            && e2.receipts[2..] == d.receipts
            && e2.receipts[0].(id := "", date := "") == e2.receipts[1].(id := "", date := "")
  {
    var e1 := Run(q, d).1;
    assert Run(q.(clock := clock2), e1).0.Recorded?;
    var e2 := Run(q.(clock := clock2), e1).1;
    assert e2.receipts[2..] == e1.receipts[1..];
  }
}
