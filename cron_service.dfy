/**
 * The server's scheduled callback: read the document (a fallback one when it
 * cannot be read), consume the skip flag, check the stored settings, send, and
 * record the receipt as sent or failed.  There is no lock and no duplicate check.
 */
module CronService {
  import opened Wrappers
  import opened ReceiptStore

  /** `{receipts: [], settings: {}}`: what an unreadable document reads as. */
  const FallbackDocument := Document([], None, Some(EmptySettings))

  /** One run: `period` is the month label, such as "janvier 2026". */
  datatype Request = Request(backend: Backend, period: string, clock: Clock, reply: MailReply)

  datatype Outcome =
    | Skipped               // the skip flag was consumed
    | SkipNotSaved          // the skip flag was set but the reset could not be written
    | NoSettings            // no settings or no email: nothing happens
    | Crashed               // generating or sending threw: logged, nothing recorded
    | Recorded(receipt: Receipt)
    | NotSaved(receipt: Receipt)  // the receipt was built but the write threw

  /** `getDb`: the stored document, or the fallback one. */
  function ReadOrFallback(backend: Backend, d: Document): (r: Document)
    ensures backend == ReadFails ==>
              r.receipts == [] && r.automation == None && !SkipRequested(r) && r.settings == Some(EmptySettings)
    ensures backend != ReadFails ==> r == d
  {
    if backend == ReadFails then FallbackDocument else d
  }

  /** The callback on a document: its outcome and the document left in the store. */
  function Run(q: Request, d: Document): (Outcome, Document) {
    var db := ReadOrFallback(q.backend, d);
    if SkipRequested(db) then
      if q.backend == WriteFails then (SkipNotSaved, d)
      else (Skipped, db.(automation := Some(AutomationStatus(false))))
    else if db.settings.None? || db.settings.value.email == [] then (NoSettings, d)
    else
      var s := db.settings.value;
      match q.reply
      case Threw => (Crashed, d)
      case Replied(success, id) =>
        var r := Receipt(q.clock.id, q.clock.iso, s.tenantName, q.period, s.amount,
                         if success then SentAuto else FailedAuto, id);
        if q.backend == WriteFails then (NotSaved(r), d)
        else (Recorded(r), Prepend(r, db))
  }

  /** The callback on the store. */
  method Handle(store: Store, q: Request) returns (o: Outcome)
    modifies store
    ensures (o, store.Snapshot()) == Run(q, old(store.Snapshot()))
  {
    var loaded := store.Load(q.backend);
    var db := if loaded.Some? then loaded.value else FallbackDocument;
    if SkipRequested(db) {
      db := db.(automation := Some(AutomationStatus(false)));
      var saved := store.Save(db, q.backend);
      return if saved then Skipped else SkipNotSaved;
    }
    if db.settings.None? || db.settings.value.email == [] {
      return NoSettings;
    }
    var s := db.settings.value;
    if q.reply.Threw? {
      return Crashed;
    }
    var r := Receipt(q.clock.id, q.clock.iso, s.tenantName, q.period, s.amount,
                     if q.reply.success then SentAuto else FailedAuto, q.reply.id);
    db := Prepend(r, db);
    var saved := store.Save(db, q.backend);
    o := if saved then Recorded(r) else NotSaved(r);
  }

  // ---------------------------------------------------------------- properties

  /** An unreadable document is read as the fallback, which has no email: nothing happens. */
  lemma ReadFailureDoesNothing(q: Request, d: Document)
    requires q.backend == ReadFails
    ensures Run(q, d) == (NoSettings, d)
  {
  }

  /** A set skip flag is reset and saved before the settings are looked at; the history
      and the settings are untouched and nothing is sent. */
  lemma SkipConsumed(q: Request, d: Document)
    requires q.backend == Available && SkipRequested(d)
    ensures var (o, e) := Run(q, d);
            && o == Skipped && e.receipts == d.receipts && e.settings == d.settings
            && e.automation == Some(AutomationStatus(false))
  {
  }

  /** Missing settings or a missing email: the document is left as it was. */
  lemma NoSettingsNoSave(q: Request, d: Document)
    requires !SkipRequested(d) && (d.settings.None? || d.settings.value.email == [])
    ensures Run(q, d) == (NoSettings, d)
  {
  }

  /** A recorded receipt carries "Sent (Auto)" exactly when the mailer reported success,
      "Failed (Auto)" otherwise; it is put first and the rest of the document is kept. */
  lemma RecordedStatus(q: Request, d: Document)
    requires Run(q, d).0.Recorded?
    ensures var (o, e) := Run(q, d);
            && q.reply.Replied?
            && (o.receipt.status == SentAuto <==> q.reply.success)
            && (o.receipt.status == FailedAuto <==> !q.reply.success)
            && o.receipt.period == q.period && o.receipt.emailId == q.reply.id
            && o.receipt.tenantName == d.settings.value.tenantName
            && o.receipt.amount == d.settings.value.amount
            && e == Prepend(o.receipt, d)
  {
  }

  /** A throw from generating or sending adds nothing and writes nothing. */
  lemma CrashAddsNothing(q: Request, d: Document)
    requires q.reply == Threw
    ensures var (o, e) := Run(q, d);
            o != Skipped ==> e == d
  {
  }

  /** `n` runs of the callback in a row. */
  function Repeat(q: Request, d: Document, n: nat): Document
    decreases n
  {
    if n == 0 then d else Repeat(q, Run(q, d).1, n - 1)
  }

  /** Without a duplicate check, every run that gets past the gates adds one more receipt:
      after `n` runs the history has `n` more, all for the same period, the old ones last. */
  lemma {:induction false} EveryRunAppends(q: Request, d: Document, n: nat)
    requires q.backend == Available && q.reply.Replied?
    requires !SkipRequested(d) && d.settings.Some? && d.settings.value.email != []
    ensures var e := Repeat(q, d, n);
            && |e.receipts| == |d.receipts| + n && e.receipts[n..] == d.receipts
            && (forall i :: 0 <= i < n ==> e.receipts[i].period == q.period)
            && e.settings == d.settings && e.automation == d.automation
    decreases n
  {
    if n > 0 {
      var d1 := Run(q, d).1;
      EveryRunAppends(q, d1, n - 1);
      var e := Repeat(q, d, n);
      assert e == Repeat(q, d1, n - 1);
      assert e.receipts[n - 1..] == d1.receipts;
      assert e.receipts[n..] == d1.receipts[1..];
    }
  }
}
