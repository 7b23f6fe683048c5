/**
 * The persisted document `{receipts, automationStatus, settings}` and the store
 * holding it.  The handlers read the whole document, change their copy and write
 * the whole copy back; a backend that fails to read or to write is an input.
 */
module ReceiptStore {
  import opened Wrappers
  import opened JsText

  /** The statuses the handlers write. */
  datatype Status = Sent | SentAuto | Failed | FailedAuto {
    function Text(): string {
      match this
      case Sent => "Sent"
      case SentAuto => "Sent (Auto)"
      case Failed => "Failed"
      case FailedAuto => "Failed (Auto)"
    }
  }

  /** `status.includes('Sent')`. */
  predicate CountsAsSent(s: Status) {
    Contains(s.Text(), "Sent")
  }

  /** The two "Sent" statuses count as sent, the two "Failed" ones do not. */
  lemma CountsAsSentIff(s: Status)
    ensures CountsAsSent(s) <==> s == Sent || s == SentAuto
  {
    if s == Sent || s == SentAuto {
      assert OccursAt(s.Text(), "Sent", 0);
    } else {
      forall i | 0 <= i <= |s.Text()| - 4
        ensures !OccursAt(s.Text(), "Sent", i)
      {
        assert 'S' !in s.Text();
        assert s.Text()[i..i + 4][0] == s.Text()[i];
      }
    }
  }

  /** One history entry; the amount is kept as the text it was given as. */
  datatype Receipt = Receipt(id: string, date: string, tenantName: string, period: string,
                             amount: string, status: Status, emailId: string)

  datatype AutomationStatus = AutomationStatus(skipNext: bool)

  /** Tenant settings; the empty string stands for a value that is absent. */
  datatype Settings = Settings(tenantName: string, email: string, address: string, amount: string)

  const EmptySettings := Settings("", "", "", "")

  /** The document; an absent `receipts` list reads as the empty one everywhere it is used. */
  datatype Document = Document(receipts: seq<Receipt>, automation: Option<AutomationStatus>,
                               settings: Option<Settings>)

  /** The default document of the key-value store. */
  const DefaultDocument := Document([], Some(AutomationStatus(false)), None)

  /** `automationStatus || {skipNext: false}`. */
  function StatusOrDefault(d: Document): (s: AutomationStatus)
    ensures s.skipNext <==> SkipRequested(d)
    ensures d.automation.Some? ==> s == d.automation.value
  {
    d.automation.GetOr(AutomationStatus(false))
  }

  /** `db.automationStatus && db.automationStatus.skipNext`. */
  predicate SkipRequested(d: Document) {
    d.automation.Some? && d.automation.value.skipNext
  }

  /** How the backend behaves for one request. */
  datatype Backend = Available | ReadFails | WriteFails

  /** The clock readings a new receipt takes: `Date.now().toString()` and `toISOString()`. */
  datatype Clock = Clock(id: string, iso: string)

  /** What a direct `sendMail` call does: resolves with a message id, or throws. */
  datatype MailResult = Accepted(messageId: string) | MailThrew

  /** What the server's `sendReceiptEmail` does: resolves with `{success, id}`, or throws
      (rendering the PDF before it may throw too). */
  datatype MailReply = Replied(success: bool, id: string) | Threw

  /** `quittance-<period with every white-space character made _>.pdf`. */
  function AttachmentName(period: string): string {
    "quittance-" + UnderscoreSpaces(period) + ".pdf"
  }

  /** The attachment name holds no white space, keeps the period's length and its other
      characters, and has the fixed prefix and extension. */
  lemma AttachmentNameHasNoSpace(period: string)
    ensures var a := AttachmentName(period);
            && |a| == 14 + |period| && a[..10] == "quittance-" && a[|a| - 4..] == ".pdf"
            && (forall i :: 0 <= i < |a| ==> !IsSpace(a[i]))
            && (forall i :: 0 <= i < |period| && !IsSpace(period[i]) ==> a[10 + i] == period[i])
            && (forall i :: 0 <= i < |period| && IsSpace(period[i]) ==> a[10 + i] == '_')
  {
    var u := UnderscoreSpaces(period);
    UnderscoreSpacesLeavesNoSpace(period);
    var a := AttachmentName(period);
    forall i | 0 <= i < |a|
      ensures !IsSpace(a[i])
    {
      if 10 <= i < 10 + |u| {
        assert a[i] == u[i - 10];
      }
    }
  }

  /** What is handed to the mailer; `pdfPeriod` is the period given to the renderer. */
  datatype Mail = Mail(to: string, subject: string, attachment: string, pdfPeriod: string)

  /** The receipt mail for a period: subject "Quittance de loyer - <period>", the PDF
      attached under `AttachmentName(period)`. */
  function MailFor(to: string, period: string): Mail {
    Mail(to, "Quittance de loyer - " + period, AttachmentName(period), period)
  }

  /** The request method. */
  datatype HttpMethod = Get | Post | Put | Patch | Delete | Head | Options

  /** The receipt at the head of the history, the rest after it in their order. */
  function Prepend(r: Receipt, d: Document): (e: Document)
    ensures |e.receipts| == |d.receipts| + 1 && e.receipts[0] == r && e.receipts[1..] == d.receipts
    ensures e.automation == d.automation && e.settings == d.settings
  {
    d.(receipts := [r] + d.receipts)
  }

  /** The stored document. */
  class Store {
    var receipts: seq<Receipt>
    var automation: Option<AutomationStatus>
    var settings: Option<Settings>

    function Snapshot(): Document
      reads this
    {
      Document(receipts, automation, settings)
    }

    /** A store that holds the default document. */
    constructor ()
      ensures Snapshot() == DefaultDocument
    {
      receipts := [];
      automation := Some(AutomationStatus(false));
      settings := None;
    }

    /** `getDb`: the stored document, or nothing when the backend cannot be read. */
    method Load(backend: Backend) returns (d: Option<Document>)
      ensures d.None? <==> backend == ReadFails
      ensures d.Some? ==> d.value == Snapshot()
    {
      if backend == ReadFails {
        d := None;
      } else {
        d := Some(Document(receipts, automation, settings));
      }
    }

    /** `saveDb`: replaces the whole document, unless the backend cannot be written. */
    method Save(d: Document, backend: Backend) returns (ok: bool)
      modifies this
      ensures ok <==> backend != WriteFails
      ensures Snapshot() == if ok then d else old(Snapshot())
    {
      ok := backend != WriteFails;
      if ok {
        receipts, automation, settings := d.receipts, d.automation, d.settings;
      }
    }
  }
}
