/** `POST` of `src/app/api/cases/route.ts`. Required fields are checked for
    truthiness; a named referral is converted by an update whose failure is
    not looked at, and the conversion always overwrites the first response
    time; the case insert comes after the update, in no transaction. The
    store's failures are parameters: `updateFails` for the referral update,
    `insertError` for the case insert. A failed lookup reads as no row. */
module CasesRoute {
  import opened Domain
  import opened Vocabulary
  import opened Validation
  import opened Workflow
  import Database

  /** The route's conversion: status `converted_to_case`, first response now. */
  function Overwrite(r: Referral, now: string): (c: Referral)
    ensures c.status == CONVERTED && c.firstResponseAt == Some(now)
    ensures c == r.(status := CONVERTED, firstResponseAt := c.firstResponseAt)
  {
    r.(status := CONVERTED, firstResponseAt := Some(now))
  }

  /** The referral guard: only a truthy `referral_id` is looked up. */
  function LinkError(t: Tables, caller: Identity, body: Body): (r: Option<Outcome>)
    requires CaseTyped(body) && Get(body, "employee_id").VStr?
    ensures !JsTruthy(Get(body, "referral_id")) ==> r.None?
    ensures JsTruthy(Get(body, "referral_id")) ==>
              r == ReferralLinkCheck(t.referrals, caller.tenantId, body["employee_id"].s, body["referral_id"].s)
    ensures r.None? && JsTruthy(Get(body, "referral_id")) ==> var rid := body["referral_id"].s;
              rid in t.referrals && t.referrals[rid].tenantId == caller.tenantId
              && t.referrals[rid].employeeId == body["employee_id"].s
  {
    var link := Get(body, "referral_id");
    if JsTruthy(link) then ReferralLinkCheck(t.referrals, caller.tenantId, body["employee_id"].s, link.s) else None
  }

  /** The referrals after the conversion step: unchanged without a link or
      when the update fails. */
  function Converted(t: Tables, body: Body, now: string, updateFails: bool): (rs: map<string, Referral>)
    requires CaseTyped(body)
    requires JsTruthy(Get(body, "referral_id")) ==> body["referral_id"].s in t.referrals
    ensures rs.Keys == t.referrals.Keys
    ensures forall k | k in rs && !(JsTruthy(Get(body, "referral_id")) && k == body["referral_id"].s) :: rs[k] == t.referrals[k]
    ensures JsTruthy(Get(body, "referral_id")) ==> var rid := body["referral_id"].s;
              rs[rid] == if updateFails then t.referrals[rid] else Overwrite(t.referrals[rid], now)
  {
    var link := Get(body, "referral_id");
    if JsTruthy(link) && !updateFails then t.referrals[link.s := Overwrite(t.referrals[link.s], now)] else t.referrals
  }

  function Row(caller: Identity, body: Body, now: string): (row: Case)
    requires CaseTyped(body) && Get(body, "employee_id").VStr? && Get(body, "assigned_coordinator_id").VStr?
    ensures row.referralId.None? <==> !Get(body, "referral_id").VStr?
    ensures JsTruthy(Get(body, "referral_id")) ==> row.referralId.Some? && row.referralId.value != ""
  {
    Case(caller.tenantId, body["employee_id"].s, AsText(Get(body, "referral_id")), body["assigned_coordinator_id"].s, OPEN, now)
  }

  /** What the route answers and stores. */
  function PostStep(t: Tables, caller: Identity, body: Body, id: string, now: string,
                    updateFails: bool, insertError: Option<string>): (r: Step)
    requires CaseTyped(body) && id !in t.cases
    ensures !JsTruthy(Get(body, "employee_id")) || !JsTruthy(Get(body, "assigned_coordinator_id")) ==>
              r == Step(BadRequest(MISSING_FIELDS), t)
    ensures JsTruthy(Get(body, "employee_id")) && JsTruthy(Get(body, "assigned_coordinator_id")) ==>
              var e := EmployeeCheck(t.employees, caller.tenantId, body["employee_id"]);
              && (e.Some? ==> r == Step(e.value, t))
              && (e.None? && LinkError(t, caller, body).Some? ==> r == Step(LinkError(t, caller, body).value, t))
              && (e.None? && LinkError(t, caller, body).None? && insertError.Some? ==> r.out == Internal(insertError.value))
    ensures r.out.Ok? <==> JsTruthy(Get(body, "employee_id")) && JsTruthy(Get(body, "assigned_coordinator_id"))
                           && EmployeeCheck(t.employees, caller.tenantId, body["employee_id"]).None?
                           && LinkError(t, caller, body).None? && insertError.None?
    ensures r.out.Ok? || r.out.Internal? || r.next == t
    ensures r.next.employees == t.employees && r.next.notes == t.notes
    ensures r.out.Internal? ==> r.next.cases == t.cases
    ensures (r.out.Ok? || r.out.Internal?) && (!JsTruthy(Get(body, "referral_id")) || updateFails) ==>
              r.next.referrals == t.referrals
    ensures (r.out.Ok? || r.out.Internal?) && JsTruthy(Get(body, "referral_id")) && !updateFails ==>
              var rid := body["referral_id"].s;
              rid in t.referrals && r.next.referrals == t.referrals[rid := Overwrite(t.referrals[rid], now)]
    ensures r.out.Ok? ==> r.out == Ok(id, OPEN) && AddsOne(t.cases, r.next.cases, id)
                          && r.next.cases[id].tenantId == caller.tenantId && r.next.cases[id].status == OPEN
                          && r.next.cases[id].referralId == AsText(Get(body, "referral_id"))
                          && Some(r.next.cases[id].employeeId) == AsText(body["employee_id"])
                          && Some(r.next.cases[id].assignedCoordinatorId) == AsText(body["assigned_coordinator_id"])
                          && r.next.cases[id].openedAt == now
  {
    var employee := Get(body, "employee_id");
    var coordinator := Get(body, "assigned_coordinator_id");
    if !JsTruthy(employee) || !JsTruthy(coordinator) then Step(BadRequest(MISSING_FIELDS), t)
    else
      match EmployeeCheck(t.employees, caller.tenantId, employee)
      case Some(e) => Step(e, t)
      case None =>
        match LinkError(t, caller, body)
        case Some(e) => Step(e, t)
        case None =>
          var t1 := t.(referrals := Converted(t, body, now, updateFails));
          if insertError.Some? then Step(Internal(insertError.value), t1)
          else Step(Ok(id, OPEN), t1.(cases := t.cases[id := Row(caller, body, now)]))
  }

  /** The route with the store's calls written out. */
  method Post(store: Database.Store, caller: Identity, body: Body, id: string, now: string,
              updateFails: bool, insertError: Option<string>) returns (out: Outcome)
    requires CaseTyped(body) && id !in store.cases
    modifies store
    ensures Step(out, store.Snapshot()) == PostStep(old(store.Snapshot()), caller, body, id, now, updateFails, insertError)
  {
    var employee := Get(body, "employee_id");
    var coordinator := Get(body, "assigned_coordinator_id");
    if !JsTruthy(employee) || !JsTruthy(coordinator) {
      return BadRequest(MISSING_FIELDS);
    }
    if !(employee.s in store.employees) {
      return NotFound(EMPLOYEE_NOT_FOUND);
    }
    if store.employees[employee.s].tenantId != caller.tenantId {
      return Forbidden(CROSS_TENANT);
    }
    var link := Get(body, "referral_id");
    if JsTruthy(link) {
      if link.s !in store.referrals {
        return NotFound(REFERRAL_NOT_FOUND);
      }
      var referral := store.referrals[link.s];
      if referral.tenantId != caller.tenantId {
        return Forbidden(CROSS_TENANT);
      }
      if referral.employeeId != employee.s {
        return BadRequest(REFERRAL_MISMATCH);
      }
      if !updateFails {
        store.referrals := store.referrals[link.s := Overwrite(referral, now)];
      }
    }
    if insertError.Some? {
      return Internal(insertError.value);
    }
    store.cases := store.cases[id := Row(caller, body, now)];
    out := Ok(id, OPEN);
  }

  // ---------------------------------------------------------------------
  // Where the route and `main.py` part ways.

  /** A second conversion replaces the first response time, where `main.py`
      keeps the first one. */
  lemma ReconversionOverwrites(r: Referral, first: string, later: string)
    requires r.firstResponseAt.None? && first != later
    ensures Overwrite(Overwrite(r, first), later).firstResponseAt == Some(later)
    ensures Convert(Convert(r, first), later).firstResponseAt == Some(first)
  {
  }

  /** On a referral that already has a first response, a successful route
      call moves it to `now`; `main.py` leaves it. */
  lemma AnsweredReferralDiffers(t: Tables, caller: Identity, body: Body, id: string, now: string)
    requires CaseTyped(body) && id !in t.cases
    requires JsTruthy(Get(body, "referral_id"))
    requires PostStep(t, caller, body, id, now, false, None).out.Ok?
    requires body["referral_id"].s in t.referrals
    requires t.referrals[body["referral_id"].s].firstResponseAt.Some?
    requires t.referrals[body["referral_id"].s].firstResponseAt != Some(now)
    ensures var rid := body["referral_id"].s;
            && PostStep(t, caller, body, id, now, false, None).next.referrals[rid].firstResponseAt == Some(now)
            && Workflow.OpenCase(t, caller, body, id, now).out.Ok?
            && Workflow.OpenCase(t, caller, body, id, now).next.referrals[rid].firstResponseAt == t.referrals[rid].firstResponseAt
  {
    assert CaseLinkError(t, caller, body) == LinkError(t, caller, body);
  }

  /** An empty employee id is refused as missing here; `main.py` only asks
      that the key be there and goes on to look the employee up. */
  lemma EmptyEmployeeIsMissing(t: Tables, caller: Identity, body: Body, id: string, now: string, updateFails: bool, insertError: Option<string>)
    requires CaseTyped(body) && id !in t.cases
    requires CASE_FIELDS <= body.Keys && body["employee_id"] == VStr("") && "" !in t.employees
    ensures PostStep(t, caller, body, id, now, updateFails, insertError).out == BadRequest(MISSING_FIELDS)
    ensures Workflow.OpenCase(t, caller, body, id, now).out == NotFound(EMPLOYEE_NOT_FOUND)
  {
  }

  /** A failed case insert still leaves the referral converted. */
  lemma InsertFailureKeepsConversion(t: Tables, caller: Identity, body: Body, id: string, now: string, message: string)
    requires CaseTyped(body) && id !in t.cases
    requires JsTruthy(Get(body, "employee_id")) && JsTruthy(Get(body, "assigned_coordinator_id"))
    requires EmployeeCheck(t.employees, caller.tenantId, body["employee_id"]).None?
    requires JsTruthy(Get(body, "referral_id")) && LinkError(t, caller, body).None?
    ensures var r := PostStep(t, caller, body, id, now, false, Some(message));
            var rid := body["referral_id"].s;
            && r.out == Internal(message) && r.next.cases == t.cases
            && r.next.referrals[rid].status == CONVERTED && r.next.referrals[rid].firstResponseAt == Some(now)
  {
  }

  /** A failed update with a successful insert leaves a case linked to a
      referral that is still only submitted, which the invariant forbids. */
  lemma UpdateFailureBreaksConsistency(t: Tables, caller: Identity, body: Body, id: string, now: string)
    requires CaseTyped(body) && id !in t.cases
    requires PostStep(t, caller, body, id, now, true, None).out.Ok?
    requires JsTruthy(Get(body, "referral_id"))
    requires t.referrals[body["referral_id"].s].status == SUBMITTED
    ensures !Consistent(PostStep(t, caller, body, id, now, true, None).next)
  {
    var t' := PostStep(t, caller, body, id, now, true, None).next;
    assert t'.referrals == t.referrals;
    assert Linked(t'.cases[id]);
    assert !CaseOk(t'.employees, t'.referrals, t'.cases[id]);
  }

  /** The route's conversion keeps every referral good and keeps keys,
      tenants, employees and converted statuses. */
  lemma OverwriteKeepsReferrals(t: Tables, rid: string, now: string)
    requires Consistent(t) && rid in t.referrals
    ensures var rs' := t.referrals[rid := Overwrite(t.referrals[rid], now)];
            && (forall k | k in t.referrals :: k in rs' && rs'[k].tenantId == t.referrals[k].tenantId
                                              && rs'[k].employeeId == t.referrals[k].employeeId
                                              && (t.referrals[k].status == CONVERTED ==> rs'[k].status == CONVERTED))
            && (forall k | k in rs' :: ReferralOk(t.employees, rs'[k]))
  {
    var rs' := t.referrals[rid := Overwrite(t.referrals[rid], now)];
    forall k | k in rs' ensures ReferralOk(t.employees, rs'[k]) {
      assert ReferralOk(t.employees, t.referrals[k]);
    }
  }

  /** Without store failures the route keeps the invariant. */
  lemma PostKeepsConsistent(t: Tables, caller: Identity, body: Body, id: string, now: string)
    requires CaseTyped(body) && id !in t.cases && Consistent(t)
    ensures Consistent(PostStep(t, caller, body, id, now, false, None).next)
  {
    var r := PostStep(t, caller, body, id, now, false, None);
    if r.out.Ok? {
      if JsTruthy(Get(body, "referral_id")) {
        OverwriteKeepsReferrals(t, body["referral_id"].s, now);
      } else {
        assert r.next.referrals == t.referrals;
      }
      CaseInsertKeepsConsistent(t, r.next, id);
    }
  }

  /** With truthy fields, no store failure, and a referral (if any) not yet
      answered, the route does exactly what `main.py` does. */
  lemma AgreesWithMainOnFirstConversion(t: Tables, caller: Identity, body: Body, id: string, now: string)
    requires CaseTyped(body) && id !in t.cases
    requires JsTruthy(Get(body, "employee_id")) && JsTruthy(Get(body, "assigned_coordinator_id"))
    requires JsTruthy(Get(body, "referral_id")) && body["referral_id"].s in t.referrals ==>
               t.referrals[body["referral_id"].s].firstResponseAt.None?
    ensures PostStep(t, caller, body, id, now, false, None) == Workflow.OpenCase(t, caller, body, id, now)
  {
    assert CASE_FIELDS <= body.Keys;
    if EmployeeCheck(t.employees, caller.tenantId, body["employee_id"]).None? {
      assert CaseLinkError(t, caller, body) == LinkError(t, caller, body);
    }
  }
}
