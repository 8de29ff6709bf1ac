/** The pure parts of the receptionist's billing page (clinic-frontend/src/pages/Billing.jsx):
    the invoice form and the payload it sends, the invoice search and status
    filter, and when the page offers to mark an invoice paid. */
module BillingPage {
  import opened Common
  import Billing

  datatype InvoiceForm = InvoiceForm(patient: string, doctor: string, appointment: string, amount: string, description: string)

  /** The form when opened and after a successful create. */
  const EmptyInvoiceForm: InvoiceForm := InvoiceForm("", "", "", "", "")

  /** The body of the create request; an absent key is not sent. */
  datatype InvoicePayload = InvoicePayload(patient: string, doctor: Option<string>, appointment: Option<string>, amount: string, description: string)

  /** The payload: the form as it is, without the doctor and appointment keys when they are empty. */
  function Payload(f: InvoiceForm): (p: InvoicePayload)
    ensures p.doctor.None? <==> f.doctor == ""
    ensures p.appointment.None? <==> f.appointment == ""
    ensures p.doctor.Some? ==> p.doctor.value == f.doctor
    ensures p.appointment.Some? ==> p.appointment.value == f.appointment
    ensures p.patient == f.patient && p.amount == f.amount && p.description == f.description
  {
    InvoicePayload(f.patient, if f.doctor == "" then None else Some(f.doctor),
                   if f.appointment == "" then None else Some(f.appointment), f.amount, f.description)
  }

  /** The form after a create attempt: emptied when the server accepted it, kept otherwise. */
  function AfterCreate(f: InvoiceForm, succeeded: bool): (r: InvoiceForm)
    ensures succeeded ==> r == EmptyInvoiceForm && Payload(r).doctor.None? && Payload(r).appointment.None?
    ensures !succeeded ==> r == f
  {
    if succeeded then EmptyInvoiceForm else f
  }

  /** An invoice as the list endpoint returns it. */
  datatype InvoiceRow = InvoiceRow(id: int, patientName: Option<string>, doctorName: Option<string>, status: string)

  predicate MatchesSearch(inv: InvoiceRow, search: string) {
    var term := Lower(search);
    || (inv.patientName.Some? && Includes(Lower(inv.patientName.value), term))
    || Includes(if inv.doctorName.Some? && inv.doctorName.value != "" then Lower(inv.doctorName.value) else "", term)
  }

  /** "all", or a status compared with the lower-cased invoice status. */
  predicate MatchesStatus(inv: InvoiceRow, statusFilter: string) {
    statusFilter == "all" || Lower(inv.status) == statusFilter
  }

  /** The invoices shown: matching the search by patient or doctor name, ignoring case, and the status filter, in order. */
  function FilteredInvoices(invoices: seq<InvoiceRow>, search: string, statusFilter: string): (r: seq<InvoiceRow>)
    ensures Subsequence(r, invoices)
    ensures forall inv :: inv in r ==> MatchesSearch(inv, search) && MatchesStatus(inv, statusFilter)
    ensures forall inv :: inv in invoices && MatchesSearch(inv, search) && MatchesStatus(inv, statusFilter) ==> inv in r
    ensures search == "" && statusFilter == "all" ==> r == invoices
  {
    var keep := (inv: InvoiceRow) => MatchesSearch(inv, search) && MatchesStatus(inv, statusFilter);
    if search == "" && statusFilter == "all" then
      assert forall inv :: inv in invoices ==> keep(inv) by {
        forall inv | inv in invoices ensures keep(inv) {
          IncludesEmpty(if inv.doctorName.Some? && inv.doctorName.value != "" then Lower(inv.doctorName.value) else "");
        }
      }
      FilterKeepsAll(invoices, keep);
      Filter(invoices, keep)
    else
      Filter(invoices, keep)
  }

  /** The row offers "Mark Paid" only when its status is exactly "unpaid". */
  predicate MarkPaidOffered(inv: InvoiceRow) {
    inv.status == "unpaid"
  }

  /** For the statuses the server sends, the page offers payment exactly
      where the model's `can_be_paid` holds, so the page never asks to pay a
      cancelled invoice even though the server action would allow it. */
  lemma MarkPaidOfferedIffCanBePaid(inv: Billing.Invoice, row: InvoiceRow)
    requires row.status == inv.status.Code()
    ensures MarkPaidOffered(row) <==> Billing.CanBePaid(inv)
  {
  }

  /** Filtering by "unpaid" shows exactly the rows that offer payment, for rows the server sent. */
  lemma UnpaidFilterShowsPayable(invoices: seq<InvoiceRow>, inv: InvoiceRow)
    requires forall r :: r in invoices ==> r.status in {"unpaid", "paid", "cancelled"}
    requires inv in invoices
    ensures inv in FilteredInvoices(invoices, "", "unpaid") <==> MarkPaidOffered(inv)
  {
    IncludesEmpty(if inv.doctorName.Some? && inv.doctorName.value != "" then Lower(inv.doctorName.value) else "");
    LowerIdempotent(inv.status);
    assert Lower("unpaid") == "unpaid";
    assert Lower("paid") == "paid";
    assert Lower("cancelled") == "cancelled";
  }
}
