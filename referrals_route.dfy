/** `POST` of `src/app/api/referrals/route.ts`: the same checks as the
    Python intake, on a store that can fail. A lookup or insert error of the
    store (`Some(message)`) is a parameter. */
module ReferralsRoute {
  import opened Domain
  import opened Vocabulary
  import opened Validation
  import opened Workflow
  import opened JsBody
  import Database

  const REQUIRED: seq<string> := ["intake_path", "source_type", "employee_id", "risk_level", "support_category_codes"]

  lemma RequiredAreTheFields()
    ensures KeySet(REQUIRED) == REFERRAL_FIELDS
  {
    assert REQUIRED[0] == "intake_path" && REQUIRED[1] == "source_type" && REQUIRED[2] == "employee_id";
    assert REQUIRED[3] == "risk_level" && REQUIRED[4] == "support_category_codes";
  }

  /** The row the route inserts: as in `main.py`, except that the codes are
      kept as the array. */
  function Row(caller: Identity, body: Body, now: string): (r: Referral)
    requires ReferralBodyError(body).None? && body["employee_id"].VStr?
    ensures r == ReferralRow(caller, body, now).(supportCategoryCodes := Array(body["support_category_codes"].items))
  {
    Referral(caller.tenantId, body["intake_path"].s, body["source_type"].s, body["employee_id"].s, SUBMITTED,
             body["risk_level"].s, Array(body["support_category_codes"].items), caller.userId,
             AsText(Get(body, "assigned_coordinator_id")), now, None)
  }

  /** What the route answers and stores. */
  function PostStep(t: Tables, caller: Identity, body: Body, id: string, now: string,
                    lookupError: Option<string>, insertError: Option<string>): (r: Step)
    requires ReferralTyped(body) && id !in t.referrals
    ensures ReferralBodyError(body).Some? ==> r == Step(ReferralBodyError(body).value, t)
    ensures ReferralBodyError(body).None? && lookupError.Some? ==> r == Step(Internal(lookupError.value), t)
    ensures ReferralBodyError(body).None? && lookupError.None? ==>
              var e := EmployeeCheck(t.employees, caller.tenantId, body["employee_id"]);
              && (e.Some? ==> r.out == e.value)
              && (e.None? && insertError.Some? ==> r.out == Internal(insertError.value))
    ensures r.out.Ok? <==> ReferralBodyError(body).None? && lookupError.None? && insertError.None?
                           && EmployeeCheck(t.employees, caller.tenantId, body["employee_id"]).None?
    ensures !r.out.Ok? ==> r.next == t
    ensures r.out.Ok? ==> r.out == Ok(id, SUBMITTED) && AddsOne(t.referrals, r.next.referrals, id)
                          && r.next.employees == t.employees && r.next.cases == t.cases && r.next.notes == t.notes
    ensures r.out.Ok? ==> var row := r.next.referrals[id];
                          && row.tenantId == caller.tenantId && row.submittedBy == caller.userId
                          && row.status == SUBMITTED && row.firstResponseAt.None?
                          && row.supportCategoryCodes == Array(body["support_category_codes"].items)
                          && Some(row.employeeId) == AsText(body["employee_id"])
                          && row.intakePath == body["intake_path"].s && row.sourceType == body["source_type"].s
                          && row.riskLevel == body["risk_level"].s && row.submittedAt == now
                          && row.assignedCoordinatorId == AsText(Get(body, "assigned_coordinator_id"))
                          && ("assigned_coordinator_id" !in body ==> row.assignedCoordinatorId.None?)
  {
    match ReferralBodyError(body)
    case Some(e) => Step(e, t)
    case None =>
      if lookupError.Some? then Step(Internal(lookupError.value), t)
      else
        match EmployeeCheck(t.employees, caller.tenantId, body["employee_id"])
        case Some(e) => Step(e, t)
        case None =>
          if insertError.Some? then Step(Internal(insertError.value), t)
          else Step(Ok(id, SUBMITTED), t.(referrals := t.referrals[id := Row(caller, body, now)]))
  }

  /** On a store that does not fail, the route answers as `main.py` does and
      stores the same row up to the representation of the codes. */
  lemma AgreesWithMain(t: Tables, caller: Identity, body: Body, id: string, now: string)
    requires ReferralTyped(body) && id !in t.referrals
    ensures var ts := PostStep(t, caller, body, id, now, None, None);
            var py := Workflow.SubmitReferral(t, caller, body, id, now);
            && ts.out == py.out
            && (ts.out.Ok? ==> ts.next == py.next.(referrals := py.next.referrals[id :=
                                 py.next.referrals[id].(supportCategoryCodes := Array(body["support_category_codes"].items))]))
            && (!ts.out.Ok? ==> ts.next == py.next)
  {
  }

  /** The route with the store's calls written out: the required-key loop,
      the guards in order, the lookup, the insert. */
  method Post(store: Database.Store, caller: Identity, body: Body, id: string, now: string,
              lookupError: Option<string>, insertError: Option<string>) returns (out: Outcome)
    requires ReferralTyped(body) && id !in store.referrals
    modifies store
    ensures Step(out, store.Snapshot()) == PostStep(old(store.Snapshot()), caller, body, id, now, lookupError, insertError)
  {
    var present := HasAllKeys(body, REQUIRED);
    AllKeysIsSubset(body, REQUIRED);
    RequiredAreTheFields();
    if !present {
      return BadRequest(MISSING_FIELDS);
    }
    if !StrIn(body["intake_path"], INTAKE_PATHS) || !StrIn(body["source_type"], SOURCE_TYPES) || !StrIn(body["risk_level"], RISK_LEVELS) {
      return BadRequest(INVALID_REFERRAL_ENUM);
    }
    var codes := body["support_category_codes"];
    if !codes.VList? || |codes.items| == 0 {
      return BadRequest(CODES_NOT_LIST);
    }
    if lookupError.Some? {
      return Internal(lookupError.value);
    }
    var employee := body["employee_id"];
    if !(employee.VStr? && employee.s in store.employees) {
      return NotFound(EMPLOYEE_NOT_FOUND);
    }
    if store.employees[employee.s].tenantId != caller.tenantId {
      return Forbidden(CROSS_TENANT);
    }
    if insertError.Some? {
      return Internal(insertError.value);
    }
    store.referrals := store.referrals[id := Row(caller, body, now)];
    out := Ok(id, SUBMITTED);
  }
}
