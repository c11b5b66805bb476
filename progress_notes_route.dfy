/** `POST` of `src/app/api/progress-notes/route.ts`: a regular-expression
    date check with no calendar behind it, a timestamp check by the
    JavaScript date parser (the parameter `dateParses`, true when
    `Date.parse` gives a number), and no check of the status, which
    defaults to draft when null or absent. The insert may fail with the
    store's message (`insertError`). */
module ProgressNotesRoute {
  import opened Domain
  import opened Vocabulary
  import opened IsoDates
  import opened Validation
  import opened Workflow
  import opened JsBody
  import Database

  const REQUIRED: seq<string> := ["employee_id", "case_id", "note_type", "note_start_date", "interaction_at", "meeting_location", "areas_of_need_codes"]

  lemma RequiredAreTheFields()
    ensures KeySet(REQUIRED) == NOTE_FIELDS
  {
    assert REQUIRED[0] == "employee_id" && REQUIRED[1] == "case_id" && REQUIRED[2] == "note_type";
    assert REQUIRED[3] == "note_start_date" && REQUIRED[4] == "interaction_at";
    assert REQUIRED[5] == "meeting_location" && REQUIRED[6] == "areas_of_need_codes";
  }

  /** `String(v)` for a string or null, as a regular expression or the date
      parser sees it. */
  function JsText(v: Val): (s: string)
    requires !v.VList?
    ensures v.VStr? ==> s == v.s
    ensures v.VNull? ==> s == "null"
  {
    if v.VStr? then v.s else "null"
  }

  /** `isIsoDate`: the date pattern on the text of the value, so null fails. */
  predicate IsIsoDateText(v: Val): (b: bool)
    requires !v.VList?
    ensures v.VStr? ==> (b <==> MatchesDatePattern(v.s))
    ensures b ==> v.VStr? && MatchesDatePattern(v.s) && v.s == DateText(Year(v.s), Month(v.s), Day(v.s))
  {
    if MatchesDatePattern(JsText(v)) then
      assert |JsText(VNull)| == 4;
      PatternIsDateText(JsText(v));
      true
    else false
  }

  lemma NullIsNoDate()
    ensures !IsIsoDateText(VNull)
  {
    assert |JsText(VNull)| == 4;
  }

  /** `isIsoDateTime`: the parser read the text of the value as a date.
      `Date.parse(null)` parses the text `null`, which is no date, so null
      never passes. */
  predicate IsIsoDateTimeText(v: Val, dateParses: string -> bool): (b: bool)
    requires !v.VList?
    ensures b ==> v.VStr?
    ensures v.VStr? ==> (b <==> dateParses(v.s))
  {
    v.VStr? && dateParses(v.s)
  }

  /** The status the route records and answers: `body.status ?? 'draft'`. */
  function Status(body: Body): (s: string)
    requires NoteTyped(body)
    ensures Get(body, "status").VStr? ==> s == body["status"].s
    ensures !Get(body, "status").VStr? ==> s == DRAFT
  {
    OrElse(Get(body, "status"), DRAFT)
  }

  /** What a body must satisfy to reach the store. */
  predicate BodyValid(body: Body, dateParses: string -> bool)
    requires NoteTyped(body)
  {
    && NOTE_FIELDS <= body.Keys
    && StrIn(body["note_type"], NOTE_TYPES)
    && IsIsoDateText(body["note_start_date"])
    && IsIsoDateTimeText(body["interaction_at"], dateParses)
    && StrIn(body["meeting_location"], MEETING_LOCATIONS)
  }

  /** The checks in order: keys, note type, date, timestamp, location. */
  function BodyError(body: Body, dateParses: string -> bool): (r: Option<Outcome>)
    requires NoteTyped(body)
    ensures r.None? <==> BodyValid(body, dateParses)
    ensures r.Some? ==> r.value.BadRequest?
    ensures !(NOTE_FIELDS <= body.Keys) ==> r == Some(BadRequest(MISSING_FIELDS))
    ensures NOTE_FIELDS <= body.Keys && !StrIn(body["note_type"], NOTE_TYPES) ==> r == Some(BadRequest(INVALID_NOTE_TYPE))
    ensures NOTE_FIELDS <= body.Keys && StrIn(body["note_type"], NOTE_TYPES) ==>
              && (!IsIsoDateText(body["note_start_date"]) ==> r == Some(BadRequest(INVALID_DATE)))
              && (IsIsoDateText(body["note_start_date"]) && !IsIsoDateTimeText(body["interaction_at"], dateParses) ==>
                    r == Some(BadRequest(INVALID_DATETIME)))
              && (IsIsoDateText(body["note_start_date"]) && IsIsoDateTimeText(body["interaction_at"], dateParses) ==>
                    !StrIn(body["meeting_location"], MEETING_LOCATIONS) ==> r == Some(BadRequest(INVALID_LOCATION)))
  {
    if !(NOTE_FIELDS <= body.Keys) then Some(BadRequest(MISSING_FIELDS))
    else if !StrIn(body["note_type"], NOTE_TYPES) then Some(BadRequest(INVALID_NOTE_TYPE))
    else if !IsIsoDateText(body["note_start_date"]) then Some(BadRequest(INVALID_DATE))
    else if !IsIsoDateTimeText(body["interaction_at"], dateParses) then Some(BadRequest(INVALID_DATETIME))
    else if !StrIn(body["meeting_location"], MEETING_LOCATIONS) then Some(BadRequest(INVALID_LOCATION))
    else None
  }

  function Row(caller: Identity, body: Body, now: string, dateParses: string -> bool): Note
    requires NoteTyped(body) && BodyValid(body, dateParses) && body["employee_id"].VStr? && body["case_id"].VStr?
  {
    Note(caller.tenantId, body["employee_id"].s, body["case_id"].s, caller.userId, body["note_type"].s,
         body["note_start_date"].s, body["interaction_at"].s, body["meeting_location"].s,
         Array(body["areas_of_need_codes"].items), AsText(Get(body, "summary_of_meeting")), Status(body), now)
  }

  /** What the route answers and stores. */
  function PostStep(t: Tables, caller: Identity, body: Body, id: string, now: string,
                    dateParses: string -> bool, insertError: Option<string>): (r: Step)
    requires NoteTyped(body) && id !in t.notes
    ensures BodyError(body, dateParses).Some? ==> r == Step(BodyError(body, dateParses).value, t)
    ensures BodyError(body, dateParses).None? ==>
              var c := CaseCheck(t.cases, caller.tenantId, body["case_id"], body["employee_id"]);
              && (c.Some? ==> r == Step(c.value, t))
              && (c.None? && insertError.Some? ==> r == Step(Internal(insertError.value), t))
    ensures r.out.Ok? <==> BodyValid(body, dateParses) && insertError.None?
                           && CaseCheck(t.cases, caller.tenantId, body["case_id"], body["employee_id"]).None?
    ensures !r.out.Ok? ==> r.next == t
    ensures r.out.Ok? ==> r.out == Ok(id, Status(body)) && AddsOne(t.notes, r.next.notes, id)
                          && r.next.employees == t.employees && r.next.referrals == t.referrals && r.next.cases == t.cases
    ensures r.out.Ok? ==> var row := r.next.notes[id];
                          && row.tenantId == caller.tenantId && row.coordinatorId == caller.userId
                          && row.status == r.out.status
                          && row.caseId in t.cases && t.cases[row.caseId].employeeId == row.employeeId
                          && row.caseId == body["case_id"].s && Some(row.employeeId) == AsText(body["employee_id"])
                          && row.noteType == body["note_type"].s && row.noteStartDate == body["note_start_date"].s
                          && row.interactionAt == body["interaction_at"].s && row.meetingLocation == body["meeting_location"].s
                          && row.areasOfNeedCodes == Array(body["areas_of_need_codes"].items)
                          && row.summary == AsText(Get(body, "summary_of_meeting")) && row.createdAt == now
  {
    match BodyError(body, dateParses)
    case Some(e) => Step(e, t)
    case None =>
      match CaseCheck(t.cases, caller.tenantId, body["case_id"], body["employee_id"])
      case Some(e) => Step(e, t)
      case None =>
        if insertError.Some? then Step(Internal(insertError.value), t)
        else Step(Ok(id, Status(body)), t.(notes := t.notes[id := Row(caller, body, now, dateParses)]))
  }

  /** The route with the store's calls written out. */
  method Post(store: Database.Store, caller: Identity, body: Body, id: string, now: string,
              dateParses: string -> bool, insertError: Option<string>) returns (out: Outcome)
    requires NoteTyped(body) && id !in store.notes
    modifies store
    ensures Step(out, store.Snapshot()) == PostStep(old(store.Snapshot()), caller, body, id, now, dateParses, insertError)
  {
    var present := HasAllKeys(body, REQUIRED);
    AllKeysIsSubset(body, REQUIRED);
    RequiredAreTheFields();
    if !present {
      return BadRequest(MISSING_FIELDS);
    }
    if !StrIn(body["note_type"], NOTE_TYPES) {
      return BadRequest(INVALID_NOTE_TYPE);
    }
    if !MatchesDatePattern(JsText(body["note_start_date"])) {
      return BadRequest(INVALID_DATE);
    }
    if !IsIsoDateTimeText(body["interaction_at"], dateParses) {
      return BadRequest(INVALID_DATETIME);
    }
    if !StrIn(body["meeting_location"], MEETING_LOCATIONS) {
      return BadRequest(INVALID_LOCATION);
    }
    var caseRef := body["case_id"];
    if !(caseRef.VStr? && caseRef.s in store.cases) {
      return NotFound(CASE_NOT_FOUND);
    }
    var row := store.cases[caseRef.s];
    if row.tenantId != caller.tenantId {
      return Forbidden(CROSS_TENANT);
    }
    if body["employee_id"] != VStr(row.employeeId) {
      return BadRequest(CASE_MISMATCH);
    }
    if insertError.Some? {
      return Internal(insertError.value);
    }
    var status := Status(body);
    store.notes := store.notes[id := Row(caller, body, now, dateParses)];
    out := Ok(id, status);
  }

  // ---------------------------------------------------------------------
  // Where the route and `main.py` part ways.

  /** Every date `main.py` accepts passes the route's pattern, but a
      well-shaped non-date such as `2026-13-45` passes only the pattern. */
  lemma DatePatternOnly(s: string)
    ensures IsIsoDate(s) ==> IsIsoDateText(VStr(s))
    ensures IsIsoDateText(VStr("2026-13-45")) && !IsIsoDate("2026-13-45")
  {
    PatternWeakerThanCalendar(s);
  }

  /** A note whose start date has the pattern but is no calendar date gets
      past the route's date check and is refused by `main.py`'s. */
  lemma ImpossibleDateSplitsTheChecks(body: Body, dateParses: string -> bool, fromIsoFormat: string -> bool)
    requires NoteTyped(body) && NOTE_FIELDS <= body.Keys && StrIn(body["note_type"], NOTE_TYPES)
    requires body["note_start_date"].VStr?
    requires MatchesDatePattern(body["note_start_date"].s) && !IsIsoDate(body["note_start_date"].s)
    ensures BodyError(body, dateParses) != Some(BadRequest(INVALID_DATE))
    ensures NoteBodyError(body, fromIsoFormat) == Some(BadRequest(INVALID_DATE))
  {
  }

  /** Any status string is recorded and echoed, including ones `main.py`
      refuses. */
  lemma StatusNotChecked(t: Tables, caller: Identity, body: Body, id: string, now: string,
                         dateParses: string -> bool, fromIsoFormat: string -> bool, status: string)
    requires NoteTyped(body) && id !in t.notes
    requires BodyValid(body, dateParses) && CaseCheck(t.cases, caller.tenantId, body["case_id"], body["employee_id"]).None?
    requires NoteFieldsValid(body, fromIsoFormat)
    requires "status" in body && body["status"] == VStr(status) && status !in NOTE_STATUSES
    ensures PostStep(t, caller, body, id, now, dateParses, None).out == Ok(id, status)
    ensures PostStep(t, caller, body, id, now, dateParses, None).next.notes[id].status == status
    ensures NoteBodyError(body, fromIsoFormat) == Some(BadRequest(INVALID_STATUS))
  {
  }

  /** A null status reads as draft here; `main.py` refuses it. */
  lemma NullStatusIsDraft(t: Tables, caller: Identity, body: Body, id: string, now: string,
                          dateParses: string -> bool, fromIsoFormat: string -> bool)
    requires NoteTyped(body) && id !in t.notes
    requires BodyValid(body, dateParses) && CaseCheck(t.cases, caller.tenantId, body["case_id"], body["employee_id"]).None?
    requires NoteFieldsValid(body, fromIsoFormat)
    requires "status" in body && body["status"] == VNull
    ensures PostStep(t, caller, body, id, now, dateParses, None).out == Ok(id, DRAFT)
    ensures NoteBodyError(body, fromIsoFormat) == Some(BadRequest(INVALID_STATUS))
  {
  }

  /** A note recorded with a status outside draft and final breaks the
      invariant `main.py` keeps. */
  lemma UncheckedStatusBreaksConsistency(t: Tables, caller: Identity, body: Body, id: string, now: string,
                                         dateParses: string -> bool)
    requires NoteTyped(body) && id !in t.notes
    requires PostStep(t, caller, body, id, now, dateParses, None).out.Ok?
    requires Status(body) !in NOTE_STATUSES
    ensures !Consistent(PostStep(t, caller, body, id, now, dateParses, None).next)
  {
    var t' := PostStep(t, caller, body, id, now, dateParses, None).next;
    assert !NoteOk(t'.cases, t'.notes[id]);
  }

  /** With a draft or final status and no store failure, the route keeps the invariant. */
  lemma PostKeepsConsistent(t: Tables, caller: Identity, body: Body, id: string, now: string, dateParses: string -> bool)
    requires NoteTyped(body) && id !in t.notes && Consistent(t)
    requires Status(body) in NOTE_STATUSES
    ensures Consistent(PostStep(t, caller, body, id, now, dateParses, None).next)
  {
  }
}
