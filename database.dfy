/** The store as the handlers of `main.py` see it: four tables updated in
    place. Each handler method checks its guards one after another,
    returning at the first failure, and ends in an insert (and, for a case
    opened from a referral, an in-place update of that referral). Each is
    proved to do exactly what its step function in `Workflow` says, and so
    to keep the tables consistent. */
module Database {
  import opened Domain
  import opened Vocabulary
  import opened Validation
  import opened Workflow

  class Store {
    var employees: map<string, Employee>
    var referrals: map<string, Referral>
    var cases: map<string, Case>
    var notes: map<string, Note>

    /** The tables as a value. */
    function Snapshot(): (t: Tables)
      reads this
      ensures t.referrals == referrals && t.cases == cases && t.notes == notes && t.employees == employees
    {
      Tables(employees, referrals, cases, notes)
    }

    /** A store opened on existing tables, such as the seeded fixture. */
    constructor (t: Tables)
      ensures Snapshot() == t
    {
      employees := t.employees;
      referrals := t.referrals;
      cases := t.cases;
      notes := t.notes;
    }

    method SubmitReferral(caller: Identity, body: Body, id: string, now: string) returns (out: Outcome)
      requires ReferralTyped(body) && id !in referrals
      modifies this
      ensures Step(out, Snapshot()) == Workflow.SubmitReferral(old(Snapshot()), caller, body, id, now)
      ensures Consistent(old(Snapshot())) ==> Consistent(Snapshot())
    {
      ghost var t := Snapshot();
      if Consistent(t) {
        SubmitReferralKeepsConsistent(t, caller, body, id, now);
      }
      if !(REFERRAL_FIELDS <= body.Keys) {
        return BadRequest(MISSING_FIELDS);
      }
      if !ReferralEnumsValid(body) {
        return BadRequest(INVALID_REFERRAL_ENUM);
      }
      var codes := body["support_category_codes"];
      if !codes.VList? || |codes.items| == 0 {
        return BadRequest(CODES_NOT_LIST);
      }
      var employee := body["employee_id"];
      if !(employee.VStr? && employee.s in employees) {
        return NotFound(EMPLOYEE_NOT_FOUND);
      }
      if employees[employee.s].tenantId != caller.tenantId {
        return Forbidden(CROSS_TENANT);
      }
      referrals := referrals[id := ReferralRow(caller, body, now)];
      out := Ok(id, SUBMITTED);
    }

    method OpenCase(caller: Identity, body: Body, id: string, now: string) returns (out: Outcome)
      requires CaseTyped(body) && id !in cases
      modifies this
      ensures Step(out, Snapshot()) == Workflow.OpenCase(old(Snapshot()), caller, body, id, now)
      ensures Consistent(old(Snapshot())) ==> Consistent(Snapshot())
    {
      ghost var t := Snapshot();
      if Consistent(t) {
        OpenCaseKeepsConsistent(t, caller, body, id, now);
      }
      if !(CASE_FIELDS <= body.Keys) {
        return BadRequest(MISSING_FIELDS);
      }
      var employee := body["employee_id"];
      if !(employee.VStr? && employee.s in employees) {
        return NotFound(EMPLOYEE_NOT_FOUND);
      }
      if employees[employee.s].tenantId != caller.tenantId {
        return Forbidden(CROSS_TENANT);
      }
      var link := Get(body, "referral_id");
      var converted := referrals;
      if PyTruthy(link) {
        if link.s !in referrals {
          return NotFound(REFERRAL_NOT_FOUND);
        }
        var referral := referrals[link.s];
        if referral.tenantId != caller.tenantId {
          return Forbidden(CROSS_TENANT);
        }
        if referral.employeeId != employee.s {
          return BadRequest(REFERRAL_MISMATCH);
        }
        converted := referrals[link.s := Convert(referral, now)];
      }
      // The update above is committed only together with the insert.
      var coordinator := body["assigned_coordinator_id"];
      if !coordinator.VStr? {
        return Internal(COORDINATOR_NOT_NULL);
      }
      referrals := converted;
      cases := cases[id := CaseRow(caller, body, now)];
      out := Ok(id, OPEN);
    }

    method RecordNote(caller: Identity, body: Body, id: string, now: string, fromIsoFormat: string -> bool) returns (out: Outcome)
      requires NoteTyped(body) && id !in notes
      modifies this
      ensures Step(out, Snapshot()) == Workflow.RecordNote(old(Snapshot()), caller, body, id, now, fromIsoFormat)
      ensures Consistent(old(Snapshot())) ==> Consistent(Snapshot())
    {
      ghost var t := Snapshot();
      if Consistent(t) {
        RecordNoteKeepsConsistent(t, caller, body, id, now, fromIsoFormat);
      }
      var invalid := NoteBodyError(body, fromIsoFormat);
      if invalid.Some? {
        return invalid.value;
      }
      var caseRef := body["case_id"];
      if !(caseRef.VStr? && caseRef.s in cases) {
        return NotFound(CASE_NOT_FOUND);
      }
      var row := cases[caseRef.s];
      if row.tenantId != caller.tenantId {
        return Forbidden(CROSS_TENANT);
      }
      if body["employee_id"] != VStr(row.employeeId) {
        return BadRequest(CASE_MISMATCH);
      }
      var status := NoteStatus(body).s;
      notes := notes[id := NoteRow(caller, body, now, fromIsoFormat)];
      out := Ok(id, status);
    }
  }
}
