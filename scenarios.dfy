/** The two end-to-end scenarios of the repository's tests, replayed on the
    store opened on the development seed (two employees of the one tenant):
    the referral → case → note slice with its KPI read, and the validation
    failures. */
module Scenarios {
  import opened Domain
  import opened Vocabulary
  import opened IsoDates
  import opened Validation
  import opened Workflow
  import Auth
  import Kpi
  import Database

  const TENANT := "tenant-acme"
  const ADMIN := Identity("u-admin", TENANT, "company_admin")

  /** The seeded employees. */
  function Seeded(): Tables {
    Tables(map["e-1" := Employee(TENANT, "Ava", "Reed", Some("ava@example.com")),
               "e-2" := Employee(TENANT, "Noah", "Cole", Some("noah@example.com"))],
           map[], map[], map[])
  }

  /** The header the tests send resolves to the administrator. */
  lemma AdminHeader()
    ensures Auth.ParseAuth(Some(Auth.BEARER + "founder-admin-token")) == Some(ADMIN)
  {
    Auth.ParseAuthTableTokens("founder-admin-token");
  }

  function SliceReferral(): Body {
    map["intake_path" := VStr("referral"), "source_type" := VStr("manager"), "employee_id" := VStr("e-1"),
        "risk_level" := VStr("medium"), "support_category_codes" := VList(["housing", "transportation"]),
        "assigned_coordinator_id" := VStr("u-coord")]
  }

  function SliceCase(referralId: string): Body {
    map["employee_id" := VStr("e-1"), "assigned_coordinator_id" := VStr("u-coord"), "referral_id" := VStr(referralId)]
  }

  /** The slice's note without its interaction time. */
  function NoteFields(): Body {
    map["employee_id" := VStr("e-1"), "case_id" := VStr("c-1"), "note_type" := VStr("coaching_session"),
        "note_start_date" := VStr("2026-02-01"), "meeting_location" := VStr("office"),
        "areas_of_need_codes" := VList(["housing"]), "summary_of_meeting" := VStr("Follow-up completed"),
        "status" := VStr("final")]
  }

  function SliceNote(interactionAt: string): Body {
    NoteFields()["interaction_at" := VStr(interactionAt)]
  }

  /** The interaction time of the slice, `2026-02-01T15:00:00Z`, reaches
      the parser as `2026-02-01T15:00:00+00:00`. */
  lemma SliceTimeNormalised(clock: string)
    requires clock == "2026-02-01T15:00:00"
    ensures NormalizeZ(clock + "Z") == "2026-02-01T15:00:00+00:00"
  {
    assert forall i :: 0 <= i < |clock| ==> clock[i] != 'Z';
    TrailingZNormalised(clock);
  }

  /** The fields of the slice's note, one by one. */
  lemma SliceNoteFields(b: Body, at: string)
    requires b == SliceNote(at)
    ensures NoteTyped(b) && NOTE_FIELDS <= b.Keys
    ensures b["note_start_date"] == VStr("2026-02-01") && b["interaction_at"] == VStr(at)
    ensures StrIn(b["note_type"], NOTE_TYPES) && StrIn(b["meeting_location"], MEETING_LOCATIONS)
    ensures StrIn(NoteStatus(b), NOTE_STATUSES)
  {
  }

  lemma SliceNoteValid(at: string, fromIsoFormat: string -> bool)
    requires fromIsoFormat(NormalizeZ(at))
    ensures NoteTyped(SliceNote(at)) && NoteBodyValid(SliceNote(at), fromIsoFormat)
  {
    SliceNoteFields(SliceNote(at), at);
    ScenarioDateAccepted("2026-02-01");
  }

  const SUBMITTED_AT := "2026-02-01T14:00:00Z"
  const OPENED_AT := "2026-02-01T14:30:00Z"
  const NOTED_AT := "2026-02-01T15:05:00Z"

  /** The tables after each step of the slice. */
  function AfterReferral(): Tables {
    Seeded().(referrals := map["r-1" := Referral(TENANT, "referral", "manager", "e-1", SUBMITTED, "medium",
                                                 Joined("housing,transportation"), "u-admin", Some("u-coord"),
                                                 SUBMITTED_AT, None)])
  }

  function AfterCase(): Tables {
    AfterReferral().(referrals := map["r-1" := AfterReferral().referrals["r-1"].(status := CONVERTED, firstResponseAt := Some(OPENED_AT))],
                     cases := map["c-1" := Case(TENANT, "e-1", Some("r-1"), "u-coord", OPEN, OPENED_AT)])
  }

  function AfterNote(at: string): Tables {
    AfterCase().(notes := map["n-1" := Note(TENANT, "e-1", "c-1", "u-admin", "coaching_session", "2026-02-01", at, "office",
                                            Joined("housing"), Some("Follow-up completed"), FINAL, NOTED_AT)])
  }

  /** Two codes join around one separator. */
  lemma JoinTwo(a: string, b: string, sep: char)
    ensures Text.Join([a, b], sep) == a + [sep] + b
  {
    assert [a, b][1..] == [b];
  }

  /** The slice's referral passes every check of the submission. */
  lemma SliceReferralAccepted(b: Body)
    requires b == SliceReferral()
    ensures ReferralTyped(b) && ReferralBodyError(b).None?
    ensures EmployeeCheck(Seeded().employees, TENANT, b["employee_id"]).None?
  {
    assert ReferralBodyError(b).None?;
  }

  /** The row the slice's referral stores. */
  lemma SliceReferralRow(b: Body)
    requires b == SliceReferral() && ReferralBodyError(b).None?
    ensures ReferralRow(ADMIN, b, SUBMITTED_AT) == AfterReferral().referrals["r-1"]
  {
    var codes := b["support_category_codes"].items;
    assert Text.Join(codes, ',') == "housing,transportation" by {
      JoinTwo(codes[0], codes[1], ',');
      assert codes == [codes[0], codes[1]];
    }
    var row := ReferralRow(ADMIN, b, SUBMITTED_AT);
    assert row.supportCategoryCodes == Joined("housing,transportation");
    assert row.assignedCoordinatorId == Some("u-coord");
    assert row == Referral(TENANT, "referral", "manager", "e-1", SUBMITTED, "medium", Joined("housing,transportation"),
                           "u-admin", Some("u-coord"), SUBMITTED_AT, None);
  }

  lemma ReferralStep()
    ensures ReferralTyped(SliceReferral())
    ensures Workflow.SubmitReferral(Seeded(), ADMIN, SliceReferral(), "r-1", SUBMITTED_AT) == Step(Ok("r-1", SUBMITTED), AfterReferral())
  {
    var b := SliceReferral();
    SliceReferralAccepted(b);
    SliceReferralRow(b);
  }

  lemma CaseStep()
    ensures CaseTyped(SliceCase("r-1"))
    ensures Workflow.OpenCase(AfterReferral(), ADMIN, SliceCase("r-1"), "c-1", OPENED_AT) == Step(Ok("c-1", OPEN), AfterCase())
  {
    var b := SliceCase("r-1");
    assert EmployeeCheck(AfterReferral().employees, TENANT, b["employee_id"]).None?;
    assert CaseLinkError(AfterReferral(), ADMIN, b).None?;
  }

  lemma NoteStep(at: string, fromIsoFormat: string -> bool)
    requires fromIsoFormat(NormalizeZ(at))
    ensures NoteTyped(SliceNote(at))
    ensures Workflow.RecordNote(AfterCase(), ADMIN, SliceNote(at), "n-1", NOTED_AT, fromIsoFormat) == Step(Ok("n-1", FINAL), AfterNote(at))
  {
    var b := SliceNote(at);
    SliceNoteValid(at, fromIsoFormat);
    assert NoteBodyError(b, fromIsoFormat).None?;
    assert CaseCheck(AfterCase().cases, TENANT, b["case_id"], b["employee_id"]).None?;
    SliceNoteRow(b, at, fromIsoFormat);
  }

  /** The row the slice's note stores. */
  lemma SliceNoteRow(b: Body, at: string, fromIsoFormat: string -> bool)
    requires b == SliceNote(at) && NoteTyped(b) && NoteBodyValid(b, fromIsoFormat)
    ensures NoteRow(ADMIN, b, NOTED_AT, fromIsoFormat) == AfterNote(at).notes["n-1"]
  {
    var codes := b["areas_of_need_codes"].items;
    assert codes == ["housing"];
    assert Text.Join(codes, ',') == "housing";
    var row := NoteRow(ADMIN, b, NOTED_AT, fromIsoFormat);
    assert row.areasOfNeedCodes == Joined("housing");
    assert row.summary == Some("Follow-up completed");
    assert row == Note(TENANT, "e-1", "c-1", "u-admin", "coaching_session", "2026-02-01", at, "office",
                       Joined("housing"), Some("Follow-up completed"), FINAL, NOTED_AT);
  }

  lemma SliceReport(at: string)
    ensures Kpi.Compute(AfterNote(at), TENANT) == Kpi.Report(1, 1, 1, 1.0, 1.0)
  {
    var t := AfterNote(at);
    assert Kpi.TenantReferrals(t.referrals, TENANT) == {"r-1"};
    assert Kpi.AssignedReferrals(t.referrals, TENANT) == {"r-1"};
    assert Kpi.RespondedReferrals(t.referrals, TENANT) == {"r-1"};
    assert Kpi.OpenCases(t.cases, TENANT) == {"c-1"};
    assert Kpi.TenantNotes(t.notes, TENANT) == {"n-1"};
    assert Kpi.FinalNotes(t.notes, TENANT) == {"n-1"};
  }

  /** Each request of the slice against the store, one at a time. */
  method PostSliceReferral(store: Database.Store) returns (out: Outcome)
    requires store.Snapshot() == Seeded()
    modifies store
    ensures out == Ok("r-1", SUBMITTED) && store.Snapshot() == AfterReferral()
  {
    ReferralStep();
    out := store.SubmitReferral(ADMIN, SliceReferral(), "r-1", SUBMITTED_AT);
  }

  method PostSliceCase(store: Database.Store) returns (out: Outcome)
    requires store.Snapshot() == AfterReferral()
    modifies store
    ensures out == Ok("c-1", OPEN) && store.Snapshot() == AfterCase()
  {
    CaseStep();
    out := store.OpenCase(ADMIN, SliceCase("r-1"), "c-1", OPENED_AT);
  }

  method PostSliceNote(store: Database.Store, at: string, fromIsoFormat: string -> bool) returns (out: Outcome)
    requires store.Snapshot() == AfterCase() && fromIsoFormat(NormalizeZ(at))
    modifies store
    ensures out == Ok("n-1", FINAL) && store.Snapshot() == AfterNote(at)
  {
    NoteStep(at, fromIsoFormat);
    out := store.RecordNote(ADMIN, SliceNote(at), "n-1", NOTED_AT, fromIsoFormat);
  }

  /** The slice: a referral with a coordinator, a case opened from it, a
      final note on that case, whose interaction time `at` the parser
      accepts. The tenant's report then counts one of each and both rates
      are 1. The tests ask only that the counts be at least 1. */
  method VerticalSlice(at: string, fromIsoFormat: string -> bool) returns (kpis: Kpi.Report)
    requires fromIsoFormat(NormalizeZ(at))
    ensures kpis == Kpi.Report(1, 1, 1, 1.0, 1.0)
  {
    var store := new Database.Store(Seeded());
    var referral := PostSliceReferral(store);
    var caseOut := PostSliceCase(store);
    var note := PostSliceNote(store, at, fromIsoFormat);
    SliceReport(at);
    kpis := Kpi.Compute(store.Snapshot(), TENANT);
  }

  // ---------------------------------------------------------------------
  // The validation failures.

  function EmptyCodesReferral(): Body {
    SliceReferral()["support_category_codes" := VList([])] - {"assigned_coordinator_id"}
  }

  function UnlinkedCase(): Body {
    map["employee_id" := VStr("e-1"), "assigned_coordinator_id" := VStr("u-coord")]
  }

  /** The note of the last request, with no status and no summary. */
  function BadNote(caseId: string, startDate: string, interactionAt: string): Body {
    map["employee_id" := VStr("e-1"), "case_id" := VStr(caseId), "note_type" := VStr("coaching_session"),
        "note_start_date" := VStr(startDate), "interaction_at" := VStr(interactionAt),
        "meeting_location" := VStr("office"), "areas_of_need_codes" := VList(["housing"])]
  }

  function AfterUnlinkedCase(): Tables {
    Seeded().(cases := map["c-1" := Case(TENANT, "e-1", None, "u-coord", OPEN, OPENED_AT)])
  }

  lemma EmptyCodesStep()
    ensures ReferralTyped(EmptyCodesReferral())
    ensures Workflow.SubmitReferral(Seeded(), ADMIN, EmptyCodesReferral(), "r-1", SUBMITTED_AT) == Step(BadRequest(CODES_NOT_LIST), Seeded())
  {
    assert ReferralBodyError(EmptyCodesReferral()) == Some(BadRequest(CODES_NOT_LIST));
  }

  lemma MissingReferralStep()
    ensures CaseTyped(SliceCase("missing-ref"))
    ensures Workflow.OpenCase(Seeded(), ADMIN, SliceCase("missing-ref"), "c-1", OPENED_AT) == Step(NotFound(REFERRAL_NOT_FOUND), Seeded())
  {
    var b := SliceCase("missing-ref");
    assert EmployeeCheck(Seeded().employees, TENANT, b["employee_id"]).None?;
    assert CaseLinkError(Seeded(), ADMIN, b) == Some(NotFound(REFERRAL_NOT_FOUND));
  }

  lemma UnlinkedCaseStep()
    ensures CaseTyped(UnlinkedCase())
    ensures Workflow.OpenCase(Seeded(), ADMIN, UnlinkedCase(), "c-1", OPENED_AT) == Step(Ok("c-1", OPEN), AfterUnlinkedCase())
  {
    var b := UnlinkedCase();
    assert EmployeeCheck(Seeded().employees, TENANT, b["employee_id"]).None?;
    assert CaseLinkError(Seeded(), ADMIN, b).None?;
  }

  /** A month-first start date is refused before the timestamp is looked at. */
  lemma MonthFirstNoteStep(startDate: string, interactionAt: string, fromIsoFormat: string -> bool)
    requires startDate == "02-01-2026"
    ensures NoteTyped(BadNote("c-1", startDate, interactionAt))
    ensures Workflow.RecordNote(AfterUnlinkedCase(), ADMIN, BadNote("c-1", startDate, interactionAt), "n-1", NOTED_AT, fromIsoFormat)
            == Step(BadRequest(INVALID_DATE), AfterUnlinkedCase())
  {
    MonthFirstRejected(startDate);
    assert NoteBodyError(BadNote("c-1", startDate, interactionAt), fromIsoFormat) == Some(BadRequest(INVALID_DATE));
  }

  method PostEmptyCodes(store: Database.Store) returns (out: Outcome)
    requires store.Snapshot() == Seeded()
    modifies store
    ensures out.StatusCode() == 400 && store.Snapshot() == Seeded()
  {
    EmptyCodesStep();
    out := store.SubmitReferral(ADMIN, EmptyCodesReferral(), "r-1", SUBMITTED_AT);
  }

  method PostMissingReferral(store: Database.Store) returns (out: Outcome)
    requires store.Snapshot() == Seeded()
    modifies store
    ensures out.StatusCode() == 404 && store.Snapshot() == Seeded()
  {
    MissingReferralStep();
    out := store.OpenCase(ADMIN, SliceCase("missing-ref"), "c-1", OPENED_AT);
  }

  method PostUnlinkedCase(store: Database.Store) returns (out: Outcome)
    requires store.Snapshot() == Seeded()
    modifies store
    ensures out == Ok("c-1", OPEN) && store.Snapshot() == AfterUnlinkedCase()
  {
    UnlinkedCaseStep();
    out := store.OpenCase(ADMIN, UnlinkedCase(), "c-1", OPENED_AT);
  }

  method PostMonthFirstNote(store: Database.Store, caseId: string, fromIsoFormat: string -> bool) returns (out: Outcome)
    requires store.Snapshot() == AfterUnlinkedCase() && caseId == "c-1"
    modifies store
    ensures out.StatusCode() == 400 && store.Snapshot() == AfterUnlinkedCase()
  {
    var startDate, interactionAt := "02-01-2026", "not-a-date";
    MonthFirstNoteStep(startDate, interactionAt, fromIsoFormat);
    out := store.RecordNote(ADMIN, BadNote(caseId, startDate, interactionAt), "n-1", NOTED_AT, fromIsoFormat);
  }

  /** The four requests of the validation test answer 400, 404, 200, 400. */
  method ValidationErrors(fromIsoFormat: string -> bool) returns (codes: seq<int>)
    ensures codes == [400, 404, 200, 400]
  {
    var store := new Database.Store(Seeded());
    var referral := PostEmptyCodes(store);
    var missing := PostMissingReferral(store);
    var caseOut := PostUnlinkedCase(store);
    var note := PostMonthFirstNote(store, caseOut.id, fromIsoFormat);
    codes := [referral.StatusCode(), missing.StatusCode(), caseOut.StatusCode(), note.StatusCode()];
  }
}
