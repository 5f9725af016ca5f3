/**
 * The decision logic of the browser client: status labels, the invoice verification
 * report, the dashboard filter and counters, the purchase request it submits, and which
 * panels the detail view shows. Rendering and requests are not modelled; the rows the
 * client works on are the rows GET /api/audits returns.
 */
module Client {
  import opened Common
  import opened Json
  import opened Db
  import opened Server

  // ---------------------------------------------------------------------------------------
  // Status labels

  /** `s.replace(/_/g, ' ')` */
  function ReplaceUnderscores(s: string): (r: string)
    ensures |r| == |s|
    ensures forall i :: 0 <= i < |s| ==> r[i] == if s[i] == '_' then ' ' else s[i]
  {
    if s == [] then []
    else [if s[0] == '_' then ' ' else s[0]] + ReplaceUnderscores(s[1..])
  }

  /** `formatStatus`: the badge label of a status. */
  function FormatStatus(status: string): (badge: string)
    ensures status == PENDING_DATA ==> badge == "Draft"
    ensures status == PENDING_REVIEW ==> badge == "Pending Review"
    ensures status == VERIFIED ==> badge == "Verified"
    ensures status == REJECTED ==> badge == "Rejected"
    ensures !IsStatus(status) ==> badge == ReplaceUnderscores(status)
    ensures '_' !in badge
  {
    if status == PENDING_DATA then "Draft"
    else if status == PENDING_REVIEW then "Pending Review"
    else if status == VERIFIED then "Verified"
    else if status == REJECTED then "Rejected"
    else
      var r := ReplaceUnderscores(status);
      assert forall i :: 0 <= i < |r| ==> r[i] != '_';
      r
  }

  /** The four statuses get four different labels. */
  lemma FormatStatusDistinguishes(s: string, t: string)
    requires IsStatus(s) && IsStatus(t) && s != t
    ensures FormatStatus(s) != FormatStatus(t)
  {
  }

  // ---------------------------------------------------------------------------------------
  // Invoice verification report

  datatype Report = Report(
    risk: string,
    status: string,
    invoiceCheck: string,
    numberCheck: string,
    dateCheck: string,
    observations: seq<string>,
    actions: seq<string>)

  const UploadInvoice: string := "Upload valid invoice immediately."
  const EnterNumber: string := "Enter the Invoice Number."
  const EnterDate: string := "Enter the Invoice Date."

  /** The decision part of `handleVerify`; a form field is given when its text is non-empty. */
  method Verify(hasInvoice: bool, invoiceNumber: string, invoiceDate: string) returns (report: Report)
    ensures !hasInvoice ==>
              && report.risk == "High" && report.status == "Rejected"
              && report.observations == ["Invoice document not provided."]
              && report.actions == [UploadInvoice]
    ensures hasInvoice && (invoiceNumber == "" || invoiceDate == "") ==>
              && report.risk == "Medium" && report.status == "Flagged"
              && report.observations == ["Invoice provided, but key details are missing in verification."]
              && report.actions == (if invoiceNumber == "" then [EnterNumber] else []) +
                                   (if invoiceDate == "" then [EnterDate] else [])
    ensures hasInvoice && invoiceNumber != "" && invoiceDate != "" ==>
              && report.risk == "Low" && report.status == "Verified"
              && report.observations == ["Invoice details match records. Documentation complete."]
              && report.actions == []
    ensures report.actions == [] <==> report.risk == "Low"
    ensures report.invoiceCheck == (if hasInvoice then "Verified" else "Missing")
    ensures report.numberCheck == (if invoiceNumber != "" then "Present" else "Missing")
    ensures report.dateCheck == (if invoiceDate != "" then "Recorded" else "Missing")
  {
    var risk := "Low";
    var status := "Verified";
    var actions: seq<string> := [];
    var observations: seq<string> := [];

    var invCheck := if hasInvoice then "Verified" else "Missing";
    var invNumCheck := if invoiceNumber != "" then "Present" else "Missing";
    var invDateCheck := if invoiceDate != "" then "Recorded" else "Missing";

    if !hasInvoice {
      risk := "High";
      status := "Rejected";
      observations := observations + ["Invoice document not provided."];
      actions := actions + [UploadInvoice];
    } else if invoiceNumber == "" || invoiceDate == "" {
      risk := "Medium";
      status := "Flagged";
      observations := observations + ["Invoice provided, but key details are missing in verification."];
      if invoiceNumber == "" {
        actions := actions + [EnterNumber];
      }
      if invoiceDate == "" {
        actions := actions + [EnterDate];
      }
    } else {
      observations := observations + ["Invoice details match records. Documentation complete."];
    }
    report := Report(risk, status, invCheck, invNumCheck, invDateCheck, observations, actions);
  }

  // ---------------------------------------------------------------------------------------
  // Dashboard

  /** `audits.filter(a => a.status === status)` */
  function OnlyStatus(audits: seq<AuditView>, status: string): (shown: seq<AuditView>)
    ensures |shown| <= |audits|
    ensures forall v :: v in shown <==> v in audits && v.row.status == status
  {
    if audits == [] then []
    else
      var rest := OnlyStatus(audits[1..], status);
      assert forall v :: v in audits <==> v == audits[0] || v in audits[1..];
      if audits[0].row.status == status then [audits[0]] + rest else rest
  }

  /** The filter keeps the original order: filtering a concatenation filters each part. */
  lemma {:induction false} OnlyStatusAppend(xs: seq<AuditView>, ys: seq<AuditView>, status: string)
    ensures OnlyStatus(xs + ys, status) == OnlyStatus(xs, status) + OnlyStatus(ys, status)
  {
    if xs != [] {
      assert (xs + ys)[0] == xs[0];
      assert (xs + ys)[1..] == xs[1..] + ys;
      OnlyStatusAppend(xs[1..], ys, status);
      var head := if xs[0].row.status == status then [xs[0]] else [];
      assert OnlyStatus(xs + ys, status) == head + OnlyStatus(xs[1..] + ys, status);
      assert OnlyStatus(xs, status) == head + OnlyStatus(xs[1..], status);
    } else {
      assert xs + ys == ys;
    }
  }

  /** The client-side filter of `loadAudits`: `'all'` shows everything. */
  function FilterByStatus(audits: seq<AuditView>, filter: string): (shown: seq<AuditView>)
    ensures filter == "all" ==> shown == audits
    ensures filter != "all" ==> forall v :: v in shown <==> v in audits && v.row.status == filter
    ensures filter != "all" ==> shown == OnlyStatus(audits, filter)
  {
    if filter == "all" then audits else OnlyStatus(audits, filter)
  }

  /** What the dashboard shows: the table rows and the two counters. */
  datatype Dashboard = Dashboard(shown: seq<AuditView>, total: nat, pending: nat)

  /**
   * `loadAudits` as written: when the filtered list is empty it sets both counters to 0 and
   * returns, so the counters depend on the filter after all.
   */
  function DashboardAsWritten(all: seq<AuditView>, filter: string): (d: Dashboard)
    ensures d.shown == FilterByStatus(all, filter)
    ensures d.shown == [] ==> d.total == 0 && d.pending == 0
    ensures d.shown != [] ==> d.total == |all| && d.pending == |OnlyStatus(all, PENDING_REVIEW)|
  {
    var shown := FilterByStatus(all, filter);
    if shown == [] then Dashboard([], 0, 0)
    else Dashboard(shown, |all|, |OnlyStatus(all, PENDING_REVIEW)|)
  }

  /** One audit that the filter hides is enough to make the as-written total disagree with |all|. */
  lemma DashboardAsWrittenMiscounts(v: AuditView)
    requires v.row.status == VERIFIED
    ensures DashboardAsWritten([v], PENDING_REVIEW).total == 0
    ensures DashboardAsWritten([v], "all").total == 1
  {
    assert v !in OnlyStatus([v], PENDING_REVIEW);
  }

  /** `loadAudits` as intended: the counters always describe all audits, whatever the filter. */
  function DashboardOf(all: seq<AuditView>, filter: string): (d: Dashboard)
    ensures d.shown == FilterByStatus(all, filter)
    ensures d.total == |all| && d.pending <= d.total
    ensures d.pending == |FilterByStatus(all, PENDING_REVIEW)|
  {
    Dashboard(FilterByStatus(all, filter), |all|, |OnlyStatus(all, PENDING_REVIEW)|)
  }

  /** The intended counters do not depend on the filter. */
  lemma DashboardCountersIgnoreFilter(all: seq<AuditView>, f: string, g: string)
    ensures DashboardOf(all, f).total == DashboardOf(all, g).total
    ensures DashboardOf(all, f).pending == DashboardOf(all, g).pending
  {
  }

  // ---------------------------------------------------------------------------------------
  // The purchase request

  /** The inputs of the New Request form. */
  datatype CreateForm = CreateForm(
    title: string, vendor: string, amount: string,
    invoiceNumber: string, invoiceDate: string, dueDate: string, hasInvoice: bool)

  /** The `purchase_data` object `handleCreateRequest` builds. */
  function PurchaseData(f: CreateForm): (pd: Json)
    ensures Get(pd, "amount") == Some(JStr(f.amount))
    ensures Get(pd, "purchase_rate") == Get(pd, "amount")
    ensures Get(pd, "approved_rate") == Some(JNum(0))
    ensures Get(pd, "attachments").Some? && Get(Get(pd, "attachments").value, "invoice") == Some(JBool(f.hasInvoice))
    ensures Truthy(pd)
  {
    var attachments := JObj([Member("invoice", JBool(f.hasInvoice))]);
    var members := [
      Member("vendor", JStr(f.vendor)),
      Member("amount", JStr(f.amount)),
      Member("attachments", attachments),
      Member("invoiceNumber", JStr(f.invoiceNumber)),
      Member("invoiceDate", JStr(f.invoiceDate)),
      Member("dueDate", JStr(f.dueDate)),
      Member("purchase_rate", JStr(f.amount)),
      Member("approved_rate", JNum(0))];
    LookupDistinct(members, 1);
    LookupDistinct(members, 2);
    LookupDistinct(members, 6);
    LookupDistinct(members, 7);
    LookupDistinct(attachments.members, 0);
    JObj(members)
  }

  /** The POST /api/audits body `handleCreateRequest` sends. */
  function CreateRequest(f: CreateForm): (body: CreateBody)
    ensures body.title == Some(f.title) && body.kind == Some("Purchase Request")
    ensures body.purchaseData == Some(PurchaseData(f))
  {
    CreateBody(Some(f.title), Some("Purchase Request"), Some(PurchaseData(f)))
  }

  /**
   * A request with a title passes the server's field check, is stored with type
   * "Purchase Request", and its purchase data reads back unchanged.
   */
  lemma CreateRequestAccepted(f: CreateForm)
    requires f.title != ""
    ensures var body := CreateRequest(f);
      && Filled(body.title) && Present(body.purchaseData)
      && KindOr(body.kind) == "Purchase Request"
      && SafeParse(Stringify(body.purchaseData)) == PurchaseData(f)
  {
  }

  // ---------------------------------------------------------------------------------------
  // Detail view

  /** Which extra panels the detail view shows. */
  datatype Panels = Panels(decision: bool, rejectionReason: Option<string>, approvedNote: bool)

  /** The role and status gating of `openAuditDetail`. */
  function DetailPanels(role: string, v: AuditView): (p: Panels)
    ensures p.decision <==> role == AUDITOR && v.row.status == PENDING_REVIEW
    ensures p.rejectionReason.Some? <==> role == USER && v.row.status == REJECTED
    ensures p.rejectionReason.Some? && Filled(v.row.adminNotes) ==> p.rejectionReason.value == v.row.adminNotes.value
    ensures p.rejectionReason.Some? && !Filled(v.row.adminNotes) ==> p.rejectionReason.value == "Please contact auditor."
    ensures p.approvedNote <==> role == USER && v.row.status == VERIFIED
  {
    Panels(
      role == AUDITOR && v.row.status == PENDING_REVIEW,
      if role == USER && v.row.status == REJECTED
      then Some(if Filled(v.row.adminNotes) then v.row.adminNotes.value else "Please contact auditor.")
      else None,
      role == USER && v.row.status == VERIFIED)
  }

  /** At most one of the three panels is shown. */
  lemma PanelsExclusive(role: string, v: AuditView)
    ensures var p := DetailPanels(role, v);
      (if p.decision then 1 else 0) + (if p.rejectionReason.Some? then 1 else 0) + (if p.approvedNote then 1 else 0) <= 1
  {
  }

  /** `audits.find(a => a.id === id)`: the first row with that id. */
  function FindView(audits: seq<AuditView>, id: nat): (r: Option<AuditView>)
    ensures r.None? <==> forall i :: 0 <= i < |audits| ==> audits[i].row.id != id
    ensures r.Some? ==> exists i :: 0 <= i < |audits| && audits[i] == r.value && r.value.row.id == id &&
                                    forall j :: 0 <= j < i ==> audits[j].row.id != id
  {
    if audits == [] then None
    else if audits[0].row.id == id then Some(audits[0])
    else
      var r := FindView(audits[1..], id);
      assert forall i :: 1 <= i < |audits| ==> audits[i] == audits[1..][i - 1];
      assert r.Some? ==> exists i :: 0 <= i < |audits| && audits[i] == r.value && r.value.row.id == id &&
                                     forall j :: 0 <= j < i ==> audits[j].row.id != id by {
        if r.Some? {
          var i :| 0 <= i < |audits[1..]| && audits[1..][i] == r.value && r.value.row.id == id &&
                   forall j :: 0 <= j < i ==> audits[1..][j].row.id != id;
          assert audits[i + 1] == r.value;
          assert forall j :: 1 <= j < i + 1 ==> audits[j] == audits[1..][j - 1];
        }
      }
      r
  }

  /** The page's globals `currentUser` and `currentAuditId`. */
  class Page {
    var currentUser: Option<Identity>
    var currentAuditId: Option<nat>

    constructor ()
      ensures currentUser == None && currentAuditId == None
    {
      currentUser, currentAuditId := None, None;
    }

    /** `checkSession` and `handleLogin` on success: the identity the server returned. */
    method SignIn(user: Identity)
      modifies this`currentUser
      ensures currentUser == Some(user)
    {
      currentUser := Some(user);
    }

    /** `logout` once the server has answered. */
    method SignOut()
      modifies this`currentUser
      ensures currentUser == None
    {
      currentUser := None;
    }

    /**
     * `openAuditDetail(id)` over the rows just fetched: the id becomes current even when no
     * row has it, in which case no detail is shown. Only reachable when signed in.
     */
    method OpenAuditDetail(audits: seq<AuditView>, id: nat) returns (panels: Option<Panels>)
      requires currentUser.Some?
      modifies this`currentAuditId
      ensures currentAuditId == Some(id)
      ensures panels.None? <==> FindView(audits, id).None?
      ensures panels.Some? ==> panels.value == DetailPanels(currentUser.value.role, FindView(audits, id).value)
    {
      currentAuditId := Some(id);
      var audit := FindView(audits, id);
      if audit.None? {
        return None;
      }
      panels := Some(DetailPanels(currentUser.value.role, audit.value));
    }

    /**
     * `submitReview(decision)`: the PUT it sends for the current audit; `notes` is the notes
     * box, absent when the decision panel is not on the page.
     */
    method SubmitReview(decision: string, notes: Option<string>) returns (target: Option<nat>, body: UpdateBody)
      ensures target == currentAuditId
      ensures body.status == Some(decision) && body.purchaseData.None?
      ensures body.adminNotes == Some(if Filled(notes) then notes.value else "")
    {
      target := currentAuditId;
      body := UpdateBody(Some(decision), Some(if Filled(notes) then notes.value else ""), None);
    }
  }

  /** The Approve button leads to VERIFIED and the Reject button to REJECTED, with the typed notes. */
  lemma ReviewButtons(a: Audit, notes: Option<string>, reviewer: nat, now: nat)
    ensures var approve := ReviewedRow(a, Some("APPROVED"), Some(notes.GetOr("")), reviewer, now);
      approve.status == VERIFIED && approve.adminNotes == Some(notes.GetOr(""))
    ensures ReviewedRow(a, Some("REJECTED"), Some(notes.GetOr("")), reviewer, now).status == REJECTED
  {
  }
}
