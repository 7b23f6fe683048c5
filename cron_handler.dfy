/**
 * The serverless scheduled handler: credential check, read, lock, consume-and-reset
 * of the skip flag, settings check, duplicate check on today's label, send, then
 * the new receipt at the head of the history.  The clock, the lock, the mailer
 * and the environment are inputs.
 */
module CronHandler {
  import opened Wrappers
  import opened JsText
  import opened ReceiptStore
  import Renderer

  /** The result of the lock call `kv.set(lockKey, 'locked', {nx, ex})`. */
  datatype LockResult = Acquired | Held | LockThrew

  /** The environment: mail credentials and the tenant settings read from it. */
  datatype Env = Env(emailUser: string, emailPass: string, tenant: Settings)

  /** One invocation: `today` is the daily label, such as "8 février 2026"; `kvBound`
      says whether the lock client is bound at all: as written it never is, and bound
      is how the lock was meant to work. */
  datatype Request = Request(env: Env, backend: Backend, kvBound: bool, lock: LockResult,
                             today: string, clock: Clock, mail: MailResult)

  datatype Outcome =
    | ConfigError                  // credentials missing
    | StoreError                   // the document could not be read, or the reset flag not saved
    | Locked                       // another run holds today's lock
    | Skipped                      // the skip flag was consumed
    | MissingSettings              // no tenant email or name
    | AlreadySent                  // a receipt for today's label was already sent
    | SendError                    // the mailer threw
    | UnsavedAfterSend(mail: Mail) // the mail went out but the history could not be saved
    | Issued(receipt: Receipt, mail: Mail)
  {
    function HttpStatus(): int {
      match this
      case Locked | Skipped | AlreadySent | Issued(_, _) => 200
      case _ => 500
    }
  }

  /** `lock:cron:` followed by the label with every white-space character made `_`. */
  function LockKey(today: string): string {
    "lock:cron:" + UnderscoreSpaces(today)
  }

  /** The lock key holds no white space, keeps the label's length and its other
      characters, and has the fixed prefix. */
  lemma LockKeyHasNoSpace(today: string)
    ensures var k := LockKey(today);
            && |k| == 10 + |today| && k[..10] == "lock:cron:"
            && (forall i :: 0 <= i < |k| ==> !IsSpace(k[i]))
            && (forall i :: 0 <= i < |today| && !IsSpace(today[i]) ==> k[10 + i] == today[i])
            && (forall i :: 0 <= i < |today| && IsSpace(today[i]) ==> k[10 + i] == '_')
  {
    var u := UnderscoreSpaces(today);
    UnderscoreSpacesLeavesNoSpace(today);
    var k := LockKey(today);
    forall i | 0 <= i < |k|
      ensures !IsSpace(k[i])
    {
      if i >= 10 {
        assert k[i] == u[i - 10];
      }
    }
  }

  /** A receipt that blocks today's run: same label, a status that includes "Sent". */
  predicate Blocks(r: Receipt, tag: string) {
    r.period == tag && CountsAsSent(r.status)
  }

  /** `receipts.find(...)`: the first receipt that blocks, if any. */
  function FindSent(receipts: seq<Receipt>, tag: string): (r: Option<Receipt>)
    ensures r.Some? ==> r.value in receipts && Blocks(r.value, tag)
    ensures r.None? <==> forall i :: 0 <= i < |receipts| ==> !Blocks(receipts[i], tag)
  {
    if receipts == [] then None
    else if Blocks(receipts[0], tag) then Some(receipts[0])
    else FindSent(receipts[1..], tag)
  }

  /** The handler on a document: the outcome and the document left in the store. */
  function Run(q: Request, d: Document): (Outcome, Document) {
    var s := q.env.tenant;
    if q.env.emailUser == [] || q.env.emailPass == [] then (ConfigError, d)
    else if q.backend == ReadFails then (StoreError, d)
    else if q.kvBound && q.lock == Held then (Locked, d)
    else if SkipRequested(d) then
      if q.backend == WriteFails then (StoreError, d)
      else (Skipped, d.(automation := Some(AutomationStatus(false))))
    else if s.email == [] || s.tenantName == [] then (MissingSettings, d)
    else
      var tag := Capitalize(q.today);
      if FindSent(d.receipts, tag).Some? then (AlreadySent, d)
      else match q.mail
        case MailThrew => (SendError, d)
        case Accepted(id) =>
          var r := Receipt(q.clock.id, q.clock.iso, s.tenantName, tag, s.amount, SentAuto, id);
          var m := MailFor(s.email, tag);
          if q.backend == WriteFails then (UnsavedAfterSend(m), d)
          else (Issued(r, m), Prepend(r, d))
  }

  /** The handler on the store: reads the document, walks the gates, writes it back. */
  method Handle(store: Store, q: Request) returns (o: Outcome)
    modifies store
    ensures (o, store.Snapshot()) == Run(q, old(store.Snapshot()))
  {
    var s := q.env.tenant;
    if q.env.emailUser == [] || q.env.emailPass == [] {
      return ConfigError;
    }
    var loaded := store.Load(q.backend);
    if loaded.None? {
      return StoreError;
    }
    var db := loaded.value;
    if q.kvBound {
      if q.lock == Held {
        return Locked;
      }
    }
    if SkipRequested(db) {
      db := db.(automation := Some(AutomationStatus(false)));
      var saved := store.Save(db, q.backend);
      return if saved then Skipped else StoreError;
    }
    if s.email == [] || s.tenantName == [] {
      return MissingSettings;
    }
    var tag := Capitalize(q.today);
    var found := FindSent(db.receipts, tag);
    if found.Some? {
      return AlreadySent;
    }
    if q.mail.MailThrew? {
      return SendError;
    }
    var m := MailFor(s.email, tag);
    var r := Receipt(q.clock.id, q.clock.iso, s.tenantName, tag, s.amount, SentAuto, q.mail.messageId);
    db := Prepend(r, db);
    var saved := store.Save(db, q.backend);
    o := if saved then Issued(r, m) else UnsavedAfterSend(m);
  }

  // ---------------------------------------------------------------- properties

  /** Only a consumed skip flag and an issued receipt change the document. */
  lemma OnlySkipAndIssueWrite(q: Request, d: Document)
    ensures var (o, e) := Run(q, d);
            e != d ==> o == Skipped || o.Issued?
  {
  }

  /** Missing credentials give 500 before anything else, whatever the store holds. */
  lemma CredentialsCheckedFirst(q: Request, d: Document)
    requires q.env.emailUser == [] || q.env.emailPass == []
    ensures Run(q, d) == (ConfigError, d) && ConfigError.HttpStatus() == 500
  {
  }

  /** A held lock stops the run with the document unchanged; a throwing lock call is
      ignored, as is the lock when no client is bound. */
  lemma LockOutcomes(q: Request, d: Document)
    requires q.env.emailUser != [] && q.env.emailPass != [] && q.backend != ReadFails
    ensures q.kvBound && q.lock == Held ==> Run(q, d) == (Locked, d)
    ensures Run(q.(lock := LockThrew), d) == Run(q.(lock := Acquired), d)
    ensures !q.kvBound ==> Run(q, d) == Run(q.(lock := Acquired), d)
  {
  }

  /** As written the lock client is never bound: two overlapping runs of one day read
      the same document, the later one finds the lock held, and still both send the
      mail and record a receipt. */
  lemma OverlappingRunsBothSendUnbound(q: Request, d: Document)
    requires !q.kvBound && q.env.emailUser != [] && q.env.emailPass != [] && q.backend == Available
    requires !SkipRequested(d) && q.env.tenant.email != [] && q.env.tenant.tenantName != []
    requires FindSent(d.receipts, Capitalize(q.today)).None? && q.mail.Accepted?
    ensures Run(q.(lock := Acquired), d).0.Issued? && Run(q.(lock := Held), d).0.Issued?
    ensures Run(q.(lock := Held), d) == Run(q.(lock := Acquired), d)
  {
  }

  /** With the client bound, as the lock was meant to work, the same two overlapping runs
      send once: the later one finds the lock held and stops with the document unchanged. */
  lemma OverlappingRunsOneSendsBound(q: Request, d: Document)
    requires q.kvBound && q.env.emailUser != [] && q.env.emailPass != [] && q.backend == Available
    requires !SkipRequested(d) && q.env.tenant.email != [] && q.env.tenant.tenantName != []
    requires FindSent(d.receipts, Capitalize(q.today)).None? && q.mail.Accepted?
    ensures Run(q.(lock := Acquired), d).0.Issued? && Run(q.(lock := Held), d) == (Locked, d)
  {
  }

  /** A set skip flag is consumed before the settings are looked at: it is reset and
      saved, the history is untouched and nothing is sent, even with no settings. */
  lemma SkipConsumedBeforeSettings(q: Request, d: Document)
    requires q.env.emailUser != [] && q.env.emailPass != [] && q.backend == Available
    requires !(q.kvBound && q.lock == Held)
    requires SkipRequested(d)
    ensures var (o, e) := Run(q, d);
            && o == Skipped && e.receipts == d.receipts && e.settings == d.settings
            && e.automation == Some(AutomationStatus(false))
            && Run(q, e).0 != Skipped
  {
  }

  /** Missing tenant email or name gives 500 with the document unchanged. */
  lemma MissingSettingsNoSave(q: Request, d: Document)
    requires q.env.emailUser != [] && q.env.emailPass != [] && q.backend != ReadFails
    requires !(q.kvBound && q.lock == Held) && !SkipRequested(d)
    requires q.env.tenant.email == [] || q.env.tenant.tenantName == []
    ensures Run(q, d) == (MissingSettings, d)
  {
  }

  /** The duplicate check: a receipt with today's capitalised label blocks the run exactly
      when its status is one of the two "Sent" ones; "Failed" receipts never block. */
  lemma {:induction false} DuplicateCheck(receipts: seq<Receipt>, tag: string)
    ensures FindSent(receipts, tag).Some? <==>
            exists i :: 0 <= i < |receipts| && receipts[i].period == tag
                        && (receipts[i].status == Sent || receipts[i].status == SentAuto)
  {
    if FindSent(receipts, tag).Some? {
      var i :| 0 <= i < |receipts| && Blocks(receipts[i], tag);
      CountsAsSentIff(receipts[i].status);
    } else {
      forall i | 0 <= i < |receipts| && receipts[i].period == tag
        ensures receipts[i].status != Sent && receipts[i].status != SentAuto
      {
        CountsAsSentIff(receipts[i].status);
      }
    }
  }

  /** On success exactly one receipt is put first: "Sent (Auto)", today's capitalised label,
      tenant name and amount from the settings, the message id; the earlier receipts follow
      in their order and nothing else changes.  The renderer is given the same tag. */
  lemma IssuedReceipt(q: Request, d: Document)
    requires Run(q, d).0.Issued?
    ensures var (o, e) := Run(q, d);
            && q.mail.Accepted?
            && e.receipts == [o.receipt] + d.receipts
            && e.automation == d.automation && e.settings == d.settings
            && o.receipt.status == SentAuto && o.receipt.period == Capitalize(q.today)
            && o.receipt.tenantName == q.env.tenant.tenantName && o.receipt.amount == q.env.tenant.amount
            && o.receipt.emailId == q.mail.messageId
            && o.mail.to == q.env.tenant.email && o.mail.pdfPeriod == o.receipt.period
            && o.HttpStatus() == 200
  {
  }

  /** A throwing mailer leaves the history as it was and answers 500. */
  lemma SendErrorAddsNothing(q: Request, d: Document)
    requires q.mail == MailThrew
    ensures var (o, e) := Run(q, d);
            && e.receipts == d.receipts && !o.Issued? && !o.UnsavedAfterSend?
            && (o != Skipped ==> e == d)
    ensures && q.env.emailUser != [] && q.env.emailPass != [] && q.backend != ReadFails
            && !(q.kvBound && q.lock == Held) && !SkipRequested(d)
            && q.env.tenant.email != [] && q.env.tenant.tenantName != []
            && FindSent(d.receipts, Capitalize(q.today)).None?
            ==> Run(q, d) == (SendError, d) && SendError.HttpStatus() == 500
  {
  }

  /** A second run on the same day, after a receipt was issued, finds it and sends nothing. */
  lemma {:induction false} OncePerDay(q: Request, d: Document, q2: Request)
    requires Run(q, d).0.Issued?
    requires q2.today == q.today && q2.env.emailUser != [] && q2.env.emailPass != []
    requires q2.backend != ReadFails && !(q2.kvBound && q2.lock == Held)
    requires q2.env.tenant.email != [] && q2.env.tenant.tenantName != []
    ensures var e := Run(q, d).1;
            Run(q2, e) == (AlreadySent, e)
  {
    var (o, e) := Run(q, d);
    assert Blocks(e.receipts[0], Capitalize(q.today)) by {
      assert OccursAt(SentAuto.Text(), "Sent", 0);
    }
    assert FindSent(e.receipts, Capitalize(q2.today)).Some?;
  }

  /** A daily label starting with a digit is its own capitalisation. */
  lemma DailyLabelKeepsCase(day: string, month: string, year: string)
    requires day != [] && IsDigit(day[0])
    ensures Capitalize(day + " " + month + " " + year) == day + " " + month + " " + year
  {
    var text := day + " " + month + " " + year;
    assert text[0] == day[0];
    assert UpperChar(text[0]) == [text[0]];
    CapitalizeKeepsRest(text);
  }

  /** The renderer reads the daily label "<day> <month> <year>" with the day as month
      name: the printed range is in January with the month word as year. */
  lemma {:induction false} IssuedPdfPeriod(q: Request, d: Document, day: string, month: string, year: string)
    requires Run(q, d).0.Issued?
    requires q.today == day + " " + month + " " + year
    requires day != [] && month != [] && ' ' !in day && ' ' !in month && IsDigit(day[0])
    ensures var p := Renderer.PeriodOf(Run(q, d).0.mail.pdfPeriod);
            p.monthNum == "01" && p.year == month && p.Start() == "01/01/" + month
  {
    IssuedReceipt(q, d);
    DailyLabelKeepsCase(day, month, year);
    Renderer.DayNumberIsNoMonth(day);
    Renderer.DailyLabelRead(day, month, year);
  }

  /** Read tolerantly, the same label gives the month it names and the year. */
  lemma {:induction false} IssuedPdfPeriodTolerant(q: Request, d: Document, day: string, month: string, year: string)
    requires Run(q, d).0.Issued?
    requires q.today == day + " " + month + " " + year
    requires day != [] && year != [] && ' ' !in day && ' ' !in month && ' ' !in year && IsDigit(day[0])
    requires Capitalize(month) in Renderer.MonthNames
    ensures Renderer.TolerantPeriodOf(Run(q, d).0.mail.pdfPeriod) == Renderer.MakePeriod(Capitalize(month), year)
  {
    IssuedReceipt(q, d);
    DailyLabelKeepsCase(day, month, year);
    Renderer.TolerantPeriodReadsDayMonthYear(day, month, year);
  }
}
