/** The three write handlers of `main.py` as steps over the four tables:
    submit a referral, open a case (possibly converting a referral), record
    a progress note. Each is a chain of guards that either answers with a
    failure and changes nothing, or ends in an insert. These functions are
    the specification the store's methods are proved against. */
module Workflow {
  import opened Domain
  import opened Vocabulary
  import opened Text
  import opened Validation
  import opened IsoDates

  /** The employee lookup: 404 for an id the table does not hold (null
      included), 403 for an employee of another tenant. */
  function EmployeeCheck(es: map<string, Employee>, tenant: string, v: Val): (r: Option<Outcome>)
    ensures r.None? <==> v.VStr? && v.s in es && es[v.s].tenantId == tenant
    ensures r == Some(NotFound(EMPLOYEE_NOT_FOUND)) <==> !(v.VStr? && v.s in es)
    ensures r == Some(Forbidden(CROSS_TENANT)) <==> v.VStr? && v.s in es && es[v.s].tenantId != tenant
  {
    if !(v.VStr? && v.s in es) then Some(NotFound(EMPLOYEE_NOT_FOUND))
    else if es[v.s].tenantId != tenant then Some(Forbidden(CROSS_TENANT))
    else None
  }

  /** The referral lookup when a case names one: 404 when unknown, 403 for
      another tenant's referral, 400 when it is about another employee. */
  function ReferralLinkCheck(rs: map<string, Referral>, tenant: string, employeeId: string, rid: string): (r: Option<Outcome>)
    ensures r.None? <==> rid in rs && rs[rid].tenantId == tenant && rs[rid].employeeId == employeeId
    ensures r == Some(NotFound(REFERRAL_NOT_FOUND)) <==> rid !in rs
    ensures r == Some(Forbidden(CROSS_TENANT)) <==> rid in rs && rs[rid].tenantId != tenant
    ensures r == Some(BadRequest(REFERRAL_MISMATCH)) <==> rid in rs && rs[rid].tenantId == tenant && rs[rid].employeeId != employeeId
  {
    if rid !in rs then Some(NotFound(REFERRAL_NOT_FOUND))
    else if rs[rid].tenantId != tenant then Some(Forbidden(CROSS_TENANT))
    else if rs[rid].employeeId != employeeId then Some(BadRequest(REFERRAL_MISMATCH))
    else None
  }

  /** The case lookup of a progress note: 404 when unknown (null included),
      403 for another tenant's case, 400 when the note's employee is not the
      case's. */
  function CaseCheck(cs: map<string, Case>, tenant: string, caseRef: Val, employee: Val): (r: Option<Outcome>)
    ensures r.None? <==> caseRef.VStr? && caseRef.s in cs && cs[caseRef.s].tenantId == tenant
                         && employee == VStr(cs[caseRef.s].employeeId)
    ensures r == Some(NotFound(CASE_NOT_FOUND)) <==> !(caseRef.VStr? && caseRef.s in cs)
    ensures r == Some(Forbidden(CROSS_TENANT)) <==> caseRef.VStr? && caseRef.s in cs && cs[caseRef.s].tenantId != tenant
    ensures r == Some(BadRequest(CASE_MISMATCH)) <==> caseRef.VStr? && caseRef.s in cs && cs[caseRef.s].tenantId == tenant
                                                      && employee != VStr(cs[caseRef.s].employeeId)
  {
    if !(caseRef.VStr? && caseRef.s in cs) then Some(NotFound(CASE_NOT_FOUND))
    else if cs[caseRef.s].tenantId != tenant then Some(Forbidden(CROSS_TENANT))
    else if employee != VStr(cs[caseRef.s].employeeId) then Some(BadRequest(CASE_MISMATCH))
    else None
  }

  /** The conversion update: the status becomes `converted_to_case` and the
      first response time is set only if there was none (`COALESCE`). */
  function Convert(r: Referral, now: string): (c: Referral)
    ensures c.status == CONVERTED && c.firstResponseAt.Some?
    ensures r.firstResponseAt.Some? ==> c.firstResponseAt == r.firstResponseAt
    ensures r.firstResponseAt.None? ==> c.firstResponseAt == Some(now)
    ensures c == r.(status := CONVERTED, firstResponseAt := c.firstResponseAt)
  {
    r.(status := CONVERTED, firstResponseAt := if r.firstResponseAt.Some? then r.firstResponseAt else Some(now))
  }

  /** First write wins: converting again changes nothing, whatever the time. */
  lemma ConvertTwiceKeepsFirst(r: Referral, first: string, later: string)
    ensures Convert(Convert(r, first), later) == Convert(r, first)
  {
  }

  /** The row a valid referral submission inserts. */
  function ReferralRow(caller: Identity, body: Body, now: string): (row: Referral)
    requires ReferralBodyError(body).None? && body["employee_id"].VStr?
    ensures row.intakePath in INTAKE_PATHS && row.sourceType in SOURCE_TYPES && row.riskLevel in RISK_LEVELS
    ensures row.supportCategoryCodes.Joined? && row.supportCategoryCodes.text != "" ==> |body["support_category_codes"].items| >= 1
  {
    Referral(caller.tenantId, body["intake_path"].s, body["source_type"].s, body["employee_id"].s, SUBMITTED,
             body["risk_level"].s, Joined(Join(body["support_category_codes"].items, ',')), caller.userId,
             AsText(Get(body, "assigned_coordinator_id")), now, None)
  }

  /** Rows other than `id` are as they were, and `id` is the only new key. */
  predicate AddsOne<R(==)>(before: map<string, R>, after: map<string, R>, id: string) {
    id !in before && after.Keys == before.Keys + {id} && forall k | k in before :: after[k] == before[k]
  }

  /** `POST /api/v1/referrals`. */
  function SubmitReferral(t: Tables, caller: Identity, body: Body, id: string, now: string): (r: Step)
    requires ReferralTyped(body) && id !in t.referrals
    ensures r.out.Ok? <==> ReferralBodyError(body).None?
                           && EmployeeCheck(t.employees, caller.tenantId, Get(body, "employee_id")).None?
    ensures ReferralBodyError(body).Some? ==> r.out == ReferralBodyError(body).value
    ensures ReferralBodyError(body).None? && EmployeeCheck(t.employees, caller.tenantId, body["employee_id"]).Some? ==>
              r.out == EmployeeCheck(t.employees, caller.tenantId, body["employee_id"]).value
    ensures !r.out.Ok? ==> r.next == t
    ensures r.out.Ok? ==> r.out == Ok(id, SUBMITTED)
    ensures r.out.Ok? ==> r.next.employees == t.employees && r.next.cases == t.cases && r.next.notes == t.notes
                          && AddsOne(t.referrals, r.next.referrals, id)
    ensures r.out.Ok? ==> var row := r.next.referrals[id];
                          && row.tenantId == caller.tenantId && row.submittedBy == caller.userId
                          && row.status == SUBMITTED && row.firstResponseAt.None? && row.submittedAt == now
                          && row.supportCategoryCodes == Joined(Join(body["support_category_codes"].items, ','))
                          && Some(row.employeeId) == AsText(body["employee_id"])
                          && row.intakePath == body["intake_path"].s && row.sourceType == body["source_type"].s
                          && row.riskLevel == body["risk_level"].s
                          && row.assignedCoordinatorId == AsText(Get(body, "assigned_coordinator_id"))
  {
    match ReferralBodyError(body)
    case Some(e) => Step(e, t)
    case None =>
      match EmployeeCheck(t.employees, caller.tenantId, body["employee_id"])
      case Some(e) => Step(e, t)
      case None => Step(Ok(id, SUBMITTED), t.(referrals := t.referrals[id := ReferralRow(caller, body, now)]))
  }

  /** The case row an accepted request inserts: the referral id as sent
      (the empty string included), null when absent. */
  function CaseRow(caller: Identity, body: Body, now: string): (row: Case)
    requires CaseTyped(body) && CASE_FIELDS <= body.Keys && body["employee_id"].VStr? && body["assigned_coordinator_id"].VStr?
    ensures row.referralId.Some? <==> "referral_id" in body && body["referral_id"].VStr?
    ensures PyTruthy(Get(body, "referral_id")) ==> row.referralId.Some? && row.referralId.value != ""
  {
    Case(caller.tenantId, body["employee_id"].s, AsText(Get(body, "referral_id")), body["assigned_coordinator_id"].s, OPEN, now)
  }

  /** The referral-link guard of `POST /api/v1/cases`: only a truthy
      `referral_id` is looked up. */
  function CaseLinkError(t: Tables, caller: Identity, body: Body): (r: Option<Outcome>)
    requires CaseTyped(body) && CASE_FIELDS <= body.Keys && body["employee_id"].VStr?
    ensures !PyTruthy(Get(body, "referral_id")) ==> r.None?
    ensures PyTruthy(Get(body, "referral_id")) ==>
              r == ReferralLinkCheck(t.referrals, caller.tenantId, body["employee_id"].s, body["referral_id"].s)
    ensures r.None? && PyTruthy(Get(body, "referral_id")) ==> var rid := body["referral_id"].s;
              rid in t.referrals && t.referrals[rid].tenantId == caller.tenantId
              && t.referrals[rid].employeeId == body["employee_id"].s
  {
    var link := Get(body, "referral_id");
    if PyTruthy(link) then ReferralLinkCheck(t.referrals, caller.tenantId, body["employee_id"].s, link.s) else None
  }

  /** `POST /api/v1/cases`. A null coordinator passes the key check but
      breaks the column's NOT NULL constraint at the insert; the uncommitted
      referral update is then lost with the connection. */
  function OpenCase(t: Tables, caller: Identity, body: Body, id: string, now: string): (r: Step)
    requires CaseTyped(body) && id !in t.cases
    ensures !(CASE_FIELDS <= body.Keys) ==> r.out == BadRequest(MISSING_FIELDS)
    ensures CASE_FIELDS <= body.Keys ==>
              (EmployeeCheck(t.employees, caller.tenantId, body["employee_id"]).Some? ==>
                 r.out == EmployeeCheck(t.employees, caller.tenantId, body["employee_id"]).value)
    ensures CASE_FIELDS <= body.Keys && EmployeeCheck(t.employees, caller.tenantId, body["employee_id"]).None? ==>
              && (CaseLinkError(t, caller, body).Some? ==> r.out == CaseLinkError(t, caller, body).value)
              && (CaseLinkError(t, caller, body).None? && !body["assigned_coordinator_id"].VStr? ==>
                    r.out == Internal(COORDINATOR_NOT_NULL))
    ensures r.out.Ok? <==> CASE_FIELDS <= body.Keys && EmployeeCheck(t.employees, caller.tenantId, body["employee_id"]).None?
                           && CaseLinkError(t, caller, body).None? && body["assigned_coordinator_id"].VStr?
    ensures !r.out.Ok? ==> r.next == t
    ensures r.out.Ok? ==> r.out == Ok(id, OPEN)
    ensures r.out.Ok? ==> r.next.employees == t.employees && r.next.notes == t.notes
                          && AddsOne(t.cases, r.next.cases, id)
    ensures r.out.Ok? ==> var row := r.next.cases[id];
                          && row.tenantId == caller.tenantId && row.status == OPEN && row.openedAt == now
                          && row.referralId == AsText(Get(body, "referral_id"))
                          && Some(row.employeeId) == AsText(body["employee_id"])
                          && Some(row.assignedCoordinatorId) == AsText(body["assigned_coordinator_id"])
                          && EmployeeCheck(t.employees, caller.tenantId, VStr(row.employeeId)).None?
    ensures r.out.Ok? && !PyTruthy(Get(body, "referral_id")) ==> r.next.referrals == t.referrals
    ensures r.out.Ok? && PyTruthy(Get(body, "referral_id")) ==> var rid := body["referral_id"].s;
              && rid in t.referrals && r.next.referrals == t.referrals[rid := Convert(t.referrals[rid], now)]
              && t.referrals[rid].employeeId == r.next.cases[id].employeeId
  {
    if !(CASE_FIELDS <= body.Keys) then Step(BadRequest(MISSING_FIELDS), t)
    else
      match EmployeeCheck(t.employees, caller.tenantId, body["employee_id"])
      case Some(e) => Step(e, t)
      case None =>
        match CaseLinkError(t, caller, body)
        case Some(e) => Step(e, t)
        case None =>
          if !body["assigned_coordinator_id"].VStr? then Step(Internal(COORDINATOR_NOT_NULL), t)
          else
            var link := Get(body, "referral_id");
            var rs := if PyTruthy(link) then t.referrals[link.s := Convert(t.referrals[link.s], now)] else t.referrals;
            Step(Ok(id, OPEN), t.(referrals := rs, cases := t.cases[id := CaseRow(caller, body, now)]))
  }

  /** The note row an accepted request inserts, written by the caller. */
  function NoteRow(caller: Identity, body: Body, now: string, fromIsoFormat: string -> bool): (row: Note)
    requires NoteTyped(body) && NoteBodyValid(body, fromIsoFormat) && body["employee_id"].VStr? && body["case_id"].VStr?
    ensures row.noteType in NOTE_TYPES && row.meetingLocation in MEETING_LOCATIONS && row.status in NOTE_STATUSES
    ensures IsIsoDate(row.noteStartDate) && IsIsoDateTime(row.interactionAt, fromIsoFormat)
  {
    Note(caller.tenantId, body["employee_id"].s, body["case_id"].s, caller.userId, body["note_type"].s,
         body["note_start_date"].s, body["interaction_at"].s, body["meeting_location"].s,
         Joined(Join(body["areas_of_need_codes"].items, ',')), AsText(Get(body, "summary_of_meeting")),
         NoteStatus(body).s, now)
  }

  /** `POST /api/v1/progress-notes`. */
  function RecordNote(t: Tables, caller: Identity, body: Body, id: string, now: string, fromIsoFormat: string -> bool): (r: Step)
    requires NoteTyped(body) && id !in t.notes
    ensures NoteBodyError(body, fromIsoFormat).Some? ==> r.out == NoteBodyError(body, fromIsoFormat).value
    ensures NoteBodyError(body, fromIsoFormat).None? && CaseCheck(t.cases, caller.tenantId, body["case_id"], body["employee_id"]).Some? ==>
              r.out == CaseCheck(t.cases, caller.tenantId, body["case_id"], body["employee_id"]).value
    ensures r.out.Ok? <==> NoteBodyValid(body, fromIsoFormat)
                           && CaseCheck(t.cases, caller.tenantId, body["case_id"], body["employee_id"]).None?
    ensures !r.out.Ok? ==> r.next == t
    ensures r.out.Ok? ==> r.out == Ok(id, NoteStatus(body).s) && r.out.status in NOTE_STATUSES
    ensures r.out.Ok? ==> r.next.employees == t.employees && r.next.referrals == t.referrals
                          && r.next.cases == t.cases && AddsOne(t.notes, r.next.notes, id)
    ensures r.out.Ok? ==> var row := r.next.notes[id];
                          && row.tenantId == caller.tenantId && row.coordinatorId == caller.userId
                          && row.status == r.out.status && row.createdAt == now
                          && row.caseId in t.cases && t.cases[row.caseId].employeeId == row.employeeId
                          && row.caseId == body["case_id"].s && Some(row.employeeId) == AsText(body["employee_id"])
                          && row.noteType == body["note_type"].s && row.noteStartDate == body["note_start_date"].s
                          && row.interactionAt == body["interaction_at"].s && row.meetingLocation == body["meeting_location"].s
                          && row.areasOfNeedCodes == Joined(Join(body["areas_of_need_codes"].items, ','))
                          && row.summary == AsText(Get(body, "summary_of_meeting"))
  {
    match NoteBodyError(body, fromIsoFormat)
    case Some(e) => Step(e, t)
    case None =>
      match CaseCheck(t.cases, caller.tenantId, body["case_id"], body["employee_id"])
      case Some(e) => Step(e, t)
      case None => Step(Ok(id, NoteStatus(body).s), t.(notes := t.notes[id := NoteRow(caller, body, now, fromIsoFormat)]))
  }

  // ---------------------------------------------------------------------
  // The cross-table invariant the guards maintain.

  predicate ReferralOk(es: map<string, Employee>, r: Referral) {
    && r.employeeId in es && es[r.employeeId].tenantId == r.tenantId
    && (r.status == SUBMITTED || r.status == CONVERTED)
    && (r.status == SUBMITTED <==> r.firstResponseAt.None?)
  }

  /** A case names a referral when its link is a non-empty id. */
  predicate Linked(c: Case) {
    c.referralId.Some? && c.referralId.value != ""
  }

  predicate CaseOk(es: map<string, Employee>, rs: map<string, Referral>, c: Case) {
    && c.employeeId in es && es[c.employeeId].tenantId == c.tenantId
    && c.status == OPEN
    && (Linked(c) ==> && c.referralId.value in rs
                      && rs[c.referralId.value].tenantId == c.tenantId
                      && rs[c.referralId.value].employeeId == c.employeeId
                      && rs[c.referralId.value].status == CONVERTED)
  }

  predicate NoteOk(cs: map<string, Case>, n: Note) {
    && n.caseId in cs && cs[n.caseId].tenantId == n.tenantId && cs[n.caseId].employeeId == n.employeeId
    && n.status in NOTE_STATUSES
  }

  /** Every row belongs to an employee of its own tenant; a converted
      referral has a first response time and a submitted one has none; a
      linked case's referral is converted and about the same employee; a
      note's case is of its tenant and employee. */
  predicate Consistent(t: Tables) {
    && (forall k | k in t.referrals :: ReferralOk(t.employees, t.referrals[k]))
    && (forall k | k in t.cases :: CaseOk(t.employees, t.referrals, t.cases[k]))
    && (forall k | k in t.notes :: NoteOk(t.cases, t.notes[k]))
  }

  /** Case links stay good when a referral is added or converted. */
  lemma CasesSurviveReferralChange(es: map<string, Employee>, rs: map<string, Referral>, rs': map<string, Referral>, cs: map<string, Case>)
    requires forall k | k in cs :: CaseOk(es, rs, cs[k])
    requires forall k | k in rs :: k in rs' && rs'[k].tenantId == rs[k].tenantId && rs'[k].employeeId == rs[k].employeeId
                                   && (rs[k].status == CONVERTED ==> rs'[k].status == CONVERTED)
    ensures forall k | k in cs :: CaseOk(es, rs', cs[k])
  {
    forall k | k in cs ensures CaseOk(es, rs', cs[k]) {
      assert CaseOk(es, rs, cs[k]);
    }
  }

  /** Inserting a good case keeps the invariant, also while referrals are
      converted in the same step. */
  lemma CaseInsertKeepsConsistent(t: Tables, t': Tables, id: string)
    requires Consistent(t)
    requires t'.employees == t.employees && t'.notes == t.notes && AddsOne(t.cases, t'.cases, id)
    requires forall k | k in t.referrals :: k in t'.referrals && t'.referrals[k].tenantId == t.referrals[k].tenantId
                                           && t'.referrals[k].employeeId == t.referrals[k].employeeId
                                           && (t.referrals[k].status == CONVERTED ==> t'.referrals[k].status == CONVERTED)
    requires forall k | k in t'.referrals :: ReferralOk(t'.employees, t'.referrals[k])
    requires CaseOk(t'.employees, t'.referrals, t'.cases[id])
    ensures Consistent(t')
  {
    CasesSurviveReferralChange(t.employees, t.referrals, t'.referrals, t.cases);
    forall k | k in t'.cases ensures CaseOk(t'.employees, t'.referrals, t'.cases[k]) {
      if k != id {
        assert t'.cases[k] == t.cases[k];
      }
    }
    forall k | k in t'.notes ensures NoteOk(t'.cases, t'.notes[k]) {
      assert NoteOk(t.cases, t.notes[k]);
    }
  }

  lemma SubmitReferralKeepsConsistent(t: Tables, caller: Identity, body: Body, id: string, now: string)
    requires ReferralTyped(body) && id !in t.referrals && Consistent(t)
    ensures Consistent(SubmitReferral(t, caller, body, id, now).next)
  {
    var r := SubmitReferral(t, caller, body, id, now);
    if r.out.Ok? {
      CasesSurviveReferralChange(t.employees, t.referrals, r.next.referrals, t.cases);
    }
  }

  lemma OpenCaseKeepsConsistent(t: Tables, caller: Identity, body: Body, id: string, now: string)
    requires CaseTyped(body) && id !in t.cases && Consistent(t)
    ensures Consistent(OpenCase(t, caller, body, id, now).next)
  {
    var r := OpenCase(t, caller, body, id, now);
    if r.out.Ok? {
      var rs' := r.next.referrals;
      CasesSurviveReferralChange(t.employees, t.referrals, rs', t.cases);
      forall k | k in rs' ensures ReferralOk(t.employees, rs'[k]) {
        assert ReferralOk(t.employees, t.referrals[k]);
      }
      forall k | k in r.next.cases ensures CaseOk(t.employees, rs', r.next.cases[k]) {
        if k != id {
          assert r.next.cases[k] == t.cases[k];
        }
      }
      forall k | k in r.next.notes ensures NoteOk(r.next.cases, r.next.notes[k]) {
        assert NoteOk(t.cases, t.notes[k]);
      }
    }
  }

  lemma RecordNoteKeepsConsistent(t: Tables, caller: Identity, body: Body, id: string, now: string, fromIsoFormat: string -> bool)
    requires NoteTyped(body) && id !in t.notes && Consistent(t)
    ensures Consistent(RecordNote(t, caller, body, id, now, fromIsoFormat).next)
  {
  }

  // ---------------------------------------------------------------------
  // Properties of the guard chains.

  /** Opening a second case from the same referral keeps the first
      response time the first conversion wrote. */
  lemma SecondConversionKeepsFirstResponse(t: Tables, caller: Identity, body: Body, id1: string, id2: string, first: string, later: string)
    requires CaseTyped(body) && id1 !in t.cases && id2 !in t.cases && id1 != id2
    requires PyTruthy(Get(body, "referral_id"))
    requires OpenCase(t, caller, body, id1, first).out.Ok?
    ensures var t1 := OpenCase(t, caller, body, id1, first).next;
            var t2 := OpenCase(t1, caller, body, id2, later).next;
            var rid := body["referral_id"].s;
            OpenCase(t1, caller, body, id2, later).out.Ok?
            && t2.referrals[rid] == t1.referrals[rid]
            && t1.referrals[rid].firstResponseAt
               == (if t.referrals[rid].firstResponseAt.Some? then t.referrals[rid].firstResponseAt else Some(first))
  {
    var t1 := OpenCase(t, caller, body, id1, first).next;
    var rid := body["referral_id"].s;
    assert t1.employees == t.employees;
    assert t1.referrals[rid] == Convert(t.referrals[rid], first);
    assert CaseLinkError(t1, caller, body).None?;
    ConvertTwiceKeepsFirst(t.referrals[rid], first, later);
  }

  /** A referral submission that fails validation answers the same on every
      store: the store is consulted only after the body passes. */
  lemma ReferralValidationIgnoresStore(t1: Tables, t2: Tables, caller: Identity, body: Body, id: string, now: string)
    requires ReferralTyped(body) && id !in t1.referrals && id !in t2.referrals
    requires ReferralBodyError(body).Some?
    ensures SubmitReferral(t1, caller, body, id, now).out == SubmitReferral(t2, caller, body, id, now).out
  {
  }

  /** Likewise for progress notes. */
  lemma NoteValidationIgnoresStore(t1: Tables, t2: Tables, caller: Identity, body: Body, id: string, now: string, fromIsoFormat: string -> bool)
    requires NoteTyped(body) && id !in t1.notes && id !in t2.notes
    requires NoteBodyError(body, fromIsoFormat).Some?
    ensures RecordNote(t1, caller, body, id, now, fromIsoFormat).out == RecordNote(t2, caller, body, id, now, fromIsoFormat).out
  {
  }

  /** A successful step writes only rows of the caller's tenant: every row
      that is new or different afterwards carries the caller's tenant. */
  predicate WritesOnlyTenant(t: Tables, t': Tables, tenant: string) {
    && t'.employees == t.employees
    && (forall k | k in t'.referrals && (k !in t.referrals || t'.referrals[k] != t.referrals[k]) :: t'.referrals[k].tenantId == tenant)
    && (forall k | k in t'.cases && (k !in t.cases || t'.cases[k] != t.cases[k]) :: t'.cases[k].tenantId == tenant)
    && (forall k | k in t'.notes && (k !in t.notes || t'.notes[k] != t.notes[k]) :: t'.notes[k].tenantId == tenant)
    && t.referrals.Keys <= t'.referrals.Keys && t.cases.Keys <= t'.cases.Keys && t.notes.Keys <= t'.notes.Keys
  }

  lemma StepsStayInTenant(t: Tables, caller: Identity, body: Body, id: string, now: string, fromIsoFormat: string -> bool)
    ensures ReferralTyped(body) && id !in t.referrals ==>
              WritesOnlyTenant(t, SubmitReferral(t, caller, body, id, now).next, caller.tenantId)
    ensures CaseTyped(body) && id !in t.cases ==>
              WritesOnlyTenant(t, OpenCase(t, caller, body, id, now).next, caller.tenantId)
    ensures NoteTyped(body) && id !in t.notes ==>
              WritesOnlyTenant(t, RecordNote(t, caller, body, id, now, fromIsoFormat).next, caller.tenantId)
  {
    if ReferralTyped(body) && id !in t.referrals {
      SubmitStaysInTenant(t, caller, body, id, now);
    }
    if CaseTyped(body) && id !in t.cases {
      OpenCaseStaysInTenant(t, caller, body, id, now);
    }
    if NoteTyped(body) && id !in t.notes {
      RecordNoteStaysInTenant(t, caller, body, id, now, fromIsoFormat);
    }
  }

  lemma SubmitStaysInTenant(t: Tables, caller: Identity, body: Body, id: string, now: string)
    requires ReferralTyped(body) && id !in t.referrals
    ensures WritesOnlyTenant(t, SubmitReferral(t, caller, body, id, now).next, caller.tenantId)
  {
  }

  lemma OpenCaseStaysInTenant(t: Tables, caller: Identity, body: Body, id: string, now: string)
    requires CaseTyped(body) && id !in t.cases
    ensures WritesOnlyTenant(t, OpenCase(t, caller, body, id, now).next, caller.tenantId)
  {
  }

  lemma RecordNoteStaysInTenant(t: Tables, caller: Identity, body: Body, id: string, now: string, fromIsoFormat: string -> bool)
    requires NoteTyped(body) && id !in t.notes
    ensures WritesOnlyTenant(t, RecordNote(t, caller, body, id, now, fromIsoFormat).next, caller.tenantId)
  {
  }

  /** An employee of another tenant is refused with 403, never treated as unknown. */
  lemma ForeignEmployeeForbidden(t: Tables, caller: Identity, body: Body, id: string, now: string)
    requires ReferralTyped(body) && id !in t.referrals && ReferralBodyError(body).None?
    requires body["employee_id"].VStr? && body["employee_id"].s in t.employees
    requires t.employees[body["employee_id"].s].tenantId != caller.tenantId
    ensures SubmitReferral(t, caller, body, id, now) == Step(Forbidden(CROSS_TENANT), t)
  {
  }

  /** The support categories a referral stores split back into the list
      sent, provided no code holds a comma. */
  lemma StoredCodesSplitBack(t: Tables, caller: Identity, body: Body, id: string, now: string)
    requires ReferralTyped(body) && id !in t.referrals
    requires SubmitReferral(t, caller, body, id, now).out.Ok?
    requires forall k :: 0 <= k < |body["support_category_codes"].items| ==> Free(body["support_category_codes"].items[k], ',')
    ensures Split(SubmitReferral(t, caller, body, id, now).next.referrals[id].supportCategoryCodes.text, ',')
            == body["support_category_codes"].items
  {
    SplitJoin(body["support_category_codes"].items, ',');
  }

  /** A null coordinator gets past the key check and the lookups, then the
      insert fails and even the referral conversion is rolled back. */
  lemma NullCoordinatorRollsBack(t: Tables, caller: Identity, body: Body, id: string, now: string)
    requires CaseTyped(body) && id !in t.cases && CASE_FIELDS <= body.Keys
    requires EmployeeCheck(t.employees, caller.tenantId, body["employee_id"]).None?
    requires CaseLinkError(t, caller, body).None?
    requires body["assigned_coordinator_id"] == VNull
    ensures OpenCase(t, caller, body, id, now) == Step(Internal(COORDINATOR_NOT_NULL), t)
  {
  }
}
