/** `GET /api/v1/kpis`: counts over the caller's tenant and two response
    ratios, each zero when nothing is there to divide by. */
module Kpi {
  import opened Domain
  import opened Vocabulary
  import opened Validation
  import Workflow

  datatype Report = Report(
    intakeVolume: nat,
    caseOpenCount: nat,
    engagementCount: nat,
    referralResponseRate: real,
    noteSubmissionRate: real)

  function TenantReferrals(rs: map<string, Referral>, tenant: string): set<string> {
    set k | k in rs && rs[k].tenantId == tenant
  }

  /** Referrals of the tenant that have a coordinator. */
  function AssignedReferrals(rs: map<string, Referral>, tenant: string): set<string> {
    set k | k in rs && rs[k].tenantId == tenant && rs[k].assignedCoordinatorId.Some?
  }

  /** Assigned referrals of the tenant that have been answered. */
  function RespondedReferrals(rs: map<string, Referral>, tenant: string): set<string> {
    set k | k in rs && rs[k].tenantId == tenant && rs[k].assignedCoordinatorId.Some? && rs[k].firstResponseAt.Some?
  }

  /** Cases of the tenant in one of the statuses that count as open. */
  function OpenCases(cs: map<string, Case>, tenant: string): set<string> {
    set k | k in cs && cs[k].tenantId == tenant && cs[k].status in OPEN_LIKE
  }

  function TenantNotes(ns: map<string, Note>, tenant: string): set<string> {
    set k | k in ns && ns[k].tenantId == tenant
  }

  function FinalNotes(ns: map<string, Note>, tenant: string): set<string> {
    set k | k in ns && ns[k].tenantId == tenant && ns[k].status == FINAL
  }

  lemma {:induction false} SubsetCard<T>(a: set<T>, b: set<T>)
    requires a <= b
    ensures |a| <= |b|
    decreases |b|
  {
    if b != {} {
      var x :| x in b;
      SubsetCard(a - {x}, b - {x});
    }
  }

  /** A ratio of counts: zero for an empty denominator. */
  function Rate(num: nat, den: nat): (r: real)
    requires num <= den
    ensures 0.0 <= r <= 1.0
    ensures den == 0 ==> r == 0.0
    ensures den > 0 ==> r * den as real == num as real
  {
    if den == 0 then 0.0 else num as real / den as real
  }

  /** The report for one tenant. */
  function Compute(t: Tables, tenant: string): (k: Report)
    ensures k.intakeVolume == |TenantReferrals(t.referrals, tenant)|
    ensures k.caseOpenCount == |OpenCases(t.cases, tenant)|
    ensures k.engagementCount == |TenantNotes(t.notes, tenant)|
    ensures 0.0 <= k.referralResponseRate <= 1.0 && 0.0 <= k.noteSubmissionRate <= 1.0
    ensures k.referralResponseRate * |AssignedReferrals(t.referrals, tenant)| as real
            == |RespondedReferrals(t.referrals, tenant)| as real
    ensures k.noteSubmissionRate * |TenantNotes(t.notes, tenant)| as real == |FinalNotes(t.notes, tenant)| as real
            || |TenantNotes(t.notes, tenant)| == 0
    ensures |AssignedReferrals(t.referrals, tenant)| == 0 ==> k.referralResponseRate == 0.0
    ensures |TenantNotes(t.notes, tenant)| == 0 ==> k.noteSubmissionRate == 0.0
  {
    var responded := RespondedReferrals(t.referrals, tenant);
    var withCoordinator := AssignedReferrals(t.referrals, tenant);
    var total := TenantNotes(t.notes, tenant);
    var finalNotes := FinalNotes(t.notes, tenant);
    SubsetCard(responded, withCoordinator);
    SubsetCard(finalNotes, total);
    Report(|TenantReferrals(t.referrals, tenant)|, |OpenCases(t.cases, tenant)|, |total|,
           Rate(|responded|, |withCoordinator|), Rate(|finalNotes|, |total|))
  }

  /** The rows of one tenant. */
  function TenantView(t: Tables, tenant: string): (v: Tables)
    ensures forall k | k in v.referrals :: v.referrals[k].tenantId == tenant
  {
    Tables(map k | k in t.employees && t.employees[k].tenantId == tenant :: t.employees[k],
           map k | k in t.referrals && t.referrals[k].tenantId == tenant :: t.referrals[k],
           map k | k in t.cases && t.cases[k].tenantId == tenant :: t.cases[k],
           map k | k in t.notes && t.notes[k].tenantId == tenant :: t.notes[k])
  }

  /** Rows of other tenants never change a tenant's report. */
  lemma ReportIsTenantLocal(t1: Tables, t2: Tables, tenant: string)
    requires TenantView(t1, tenant) == TenantView(t2, tenant)
    ensures Compute(t1, tenant) == Compute(t2, tenant)
  {
    ReferralsLocal(t1, t2, tenant);
    CasesLocal(t1, t2, tenant);
    NotesLocal(t1, t2, tenant);
  }

  lemma ReferralsLocal(t1: Tables, t2: Tables, tenant: string)
    requires TenantView(t1, tenant).referrals == TenantView(t2, tenant).referrals
    ensures TenantReferrals(t1.referrals, tenant) == TenantReferrals(t2.referrals, tenant)
    ensures AssignedReferrals(t1.referrals, tenant) == AssignedReferrals(t2.referrals, tenant)
    ensures RespondedReferrals(t1.referrals, tenant) == RespondedReferrals(t2.referrals, tenant)
  {
    var v1 := TenantView(t1, tenant).referrals;
    var v2 := TenantView(t2, tenant).referrals;
    assert forall k :: k in TenantReferrals(t1.referrals, tenant) <==> k in v1;
    assert forall k :: k in TenantReferrals(t2.referrals, tenant) <==> k in v2;
    forall k | k in v1 ensures v1[k] == t1.referrals[k] && v1[k] == t2.referrals[k] {
      assert v2[k] == t2.referrals[k];
    }
    assert AssignedReferrals(t1.referrals, tenant) == AssignedReferrals(t2.referrals, tenant);
  }

  lemma CasesLocal(t1: Tables, t2: Tables, tenant: string)
    requires TenantView(t1, tenant).cases == TenantView(t2, tenant).cases
    ensures OpenCases(t1.cases, tenant) == OpenCases(t2.cases, tenant)
  {
    var v1 := TenantView(t1, tenant).cases;
    var v2 := TenantView(t2, tenant).cases;
    forall k ensures k in OpenCases(t1.cases, tenant) <==> k in OpenCases(t2.cases, tenant) {
      assert k in v1 ==> v1[k] == t1.cases[k];
      assert k in v2 ==> v2[k] == t2.cases[k];
    }
  }

  lemma NotesLocal(t1: Tables, t2: Tables, tenant: string)
    requires TenantView(t1, tenant).notes == TenantView(t2, tenant).notes
    ensures TenantNotes(t1.notes, tenant) == TenantNotes(t2.notes, tenant)
    ensures FinalNotes(t1.notes, tenant) == FinalNotes(t2.notes, tenant)
  {
    var v1 := TenantView(t1, tenant).notes;
    var v2 := TenantView(t2, tenant).notes;
    assert forall k :: k in TenantNotes(t1.notes, tenant) <==> k in v1;
    assert forall k :: k in TenantNotes(t2.notes, tenant) <==> k in v2;
    forall k ensures k in FinalNotes(t1.notes, tenant) <==> k in FinalNotes(t2.notes, tenant) {
      assert k in v1 ==> v1[k] == t1.notes[k];
      assert k in v2 ==> v2[k] == t2.notes[k];
    }
  }

  /** Adding one row of a tenant adds one to each count it falls in. */
  lemma ReferralAdded(rs: map<string, Referral>, rs': map<string, Referral>, id: string, tenant: string)
    requires Workflow.AddsOne(rs, rs', id) && rs'[id].tenantId == tenant
    ensures |TenantReferrals(rs', tenant)| == |TenantReferrals(rs, tenant)| + 1
  {
    assert TenantReferrals(rs', tenant) == TenantReferrals(rs, tenant) + {id};
  }

  lemma CaseAdded(cs: map<string, Case>, cs': map<string, Case>, id: string, tenant: string)
    requires Workflow.AddsOne(cs, cs', id) && cs'[id].tenantId == tenant && cs'[id].status in OPEN_LIKE
    ensures |OpenCases(cs', tenant)| == |OpenCases(cs, tenant)| + 1
  {
    assert OpenCases(cs', tenant) == OpenCases(cs, tenant) + {id};
  }

  lemma NoteAdded(ns: map<string, Note>, ns': map<string, Note>, id: string, tenant: string)
    requires Workflow.AddsOne(ns, ns', id) && ns'[id].tenantId == tenant
    ensures |TenantNotes(ns', tenant)| == |TenantNotes(ns, tenant)| + 1
  {
    assert TenantNotes(ns', tenant) == TenantNotes(ns, tenant) + {id};
  }

  lemma FinalNoteAdded(ns: map<string, Note>, ns': map<string, Note>, id: string, tenant: string)
    requires Workflow.AddsOne(ns, ns', id) && ns'[id].tenantId == tenant
    ensures |FinalNotes(ns', tenant)| == |FinalNotes(ns, tenant)| + (if ns'[id].status == FINAL then 1 else 0)
  {
    var before := FinalNotes(ns, tenant);
    var after := FinalNotes(ns', tenant);
    var added := if ns'[id].status == FINAL then {id} else {};
    forall k ensures k in after <==> k in before + added {
      if k != id {
        assert k in ns' <==> k in ns;
        assert k in ns ==> ns'[k] == ns[k];
      }
    }
    assert after == before + added;
    assert id !in before;
  }

  /** An accepted referral adds one to its tenant's intake volume. */
  lemma SubmitCountsOnce(t: Tables, caller: Identity, body: Body, id: string, now: string)
    requires ReferralTyped(body) && id !in t.referrals
    requires Workflow.SubmitReferral(t, caller, body, id, now).out.Ok?
    ensures Compute(Workflow.SubmitReferral(t, caller, body, id, now).next, caller.tenantId).intakeVolume
            == Compute(t, caller.tenantId).intakeVolume + 1
  {
    var t' := Workflow.SubmitReferral(t, caller, body, id, now).next;
    ReferralAdded(t.referrals, t'.referrals, id, caller.tenantId);
  }

  /** An accepted case adds one to its tenant's open cases. */
  lemma OpenCaseCountsOnce(t: Tables, caller: Identity, body: Body, id: string, now: string)
    requires CaseTyped(body) && id !in t.cases
    requires Workflow.OpenCase(t, caller, body, id, now).out.Ok?
    ensures Compute(Workflow.OpenCase(t, caller, body, id, now).next, caller.tenantId).caseOpenCount
            == Compute(t, caller.tenantId).caseOpenCount + 1
  {
    var t' := Workflow.OpenCase(t, caller, body, id, now).next;
    CaseAdded(t.cases, t'.cases, id, caller.tenantId);
  }

  /** An accepted note adds one to its tenant's engagement count, and one
      to the final notes exactly when it is recorded as final. */
  lemma RecordNoteCountsOnce(t: Tables, caller: Identity, body: Body, id: string, now: string, fromIsoFormat: string -> bool)
    requires NoteTyped(body) && id !in t.notes
    requires Workflow.RecordNote(t, caller, body, id, now, fromIsoFormat).out.Ok?
    ensures var s := Workflow.RecordNote(t, caller, body, id, now, fromIsoFormat);
            && Compute(s.next, caller.tenantId).engagementCount == Compute(t, caller.tenantId).engagementCount + 1
            && |FinalNotes(s.next.notes, caller.tenantId)|
               == |FinalNotes(t.notes, caller.tenantId)| + (if s.out.status == FINAL then 1 else 0)
  {
    var s := Workflow.RecordNote(t, caller, body, id, now, fromIsoFormat);
    NoteAdded(t.notes, s.next.notes, id, caller.tenantId);
    FinalNoteAdded(t.notes, s.next.notes, id, caller.tenantId);
  }
}
