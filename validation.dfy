/** The checks `main.py` runs on a request body before it touches the
    store: required keys, vocabularies, list shape, date and timestamp
    formats. Each check yields the handler's failure, or nothing when the
    body passes. */
module Validation {
  import opened Domain
  import opened Vocabulary
  import opened IsoDates

  const REFERRAL_FIELDS: set<string> := {"intake_path", "source_type", "employee_id", "risk_level", "support_category_codes"}
  const CASE_FIELDS: set<string> := {"employee_id", "assigned_coordinator_id"}
  const NOTE_FIELDS: set<string> := {"employee_id", "case_id", "note_type", "note_start_date", "interaction_at", "meeting_location", "areas_of_need_codes"}

  /** The typed-body assumption per operation: the fields read as single
      values hold a string or null, and the areas of need are a list. */
  predicate ReferralTyped(body: Body) {
    ScalarFields(body, {"intake_path", "source_type", "employee_id", "risk_level", "assigned_coordinator_id"})
  }

  predicate CaseTyped(body: Body) {
    ScalarFields(body, {"employee_id", "assigned_coordinator_id", "referral_id"})
  }

  predicate NoteTyped(body: Body) {
    && ScalarFields(body, {"employee_id", "case_id", "note_type", "note_start_date", "interaction_at",
                           "meeting_location", "summary_of_meeting", "status"})
    && ("areas_of_need_codes" in body ==> body["areas_of_need_codes"].VList?)
  }

  predicate IsNonEmptyList(v: Val) {
    v.VList? && |v.items| > 0
  }

  predicate ReferralEnumsValid(body: Body)
    requires REFERRAL_FIELDS <= body.Keys
  {
    StrIn(body["intake_path"], INTAKE_PATHS) && StrIn(body["source_type"], SOURCE_TYPES) && StrIn(body["risk_level"], RISK_LEVELS)
  }

  /** The referral intake checks, in order: required keys, the three
      vocabularies, a non-empty list of support categories. */
  function ReferralBodyError(body: Body): (r: Option<Outcome>)
    ensures r.None? <==> REFERRAL_FIELDS <= body.Keys && ReferralEnumsValid(body)
                         && IsNonEmptyList(body["support_category_codes"])
    ensures r.Some? ==> r.value.BadRequest?
    ensures !(REFERRAL_FIELDS <= body.Keys) ==> r == Some(BadRequest(MISSING_FIELDS))
    ensures REFERRAL_FIELDS <= body.Keys && !ReferralEnumsValid(body) ==> r == Some(BadRequest(INVALID_REFERRAL_ENUM))
    ensures REFERRAL_FIELDS <= body.Keys && ReferralEnumsValid(body) && !IsNonEmptyList(body["support_category_codes"]) ==>
              r == Some(BadRequest(CODES_NOT_LIST))
  {
    if !(REFERRAL_FIELDS <= body.Keys) then Some(BadRequest(MISSING_FIELDS))
    else if !ReferralEnumsValid(body) then Some(BadRequest(INVALID_REFERRAL_ENUM))
    else if !IsNonEmptyList(body["support_category_codes"]) then Some(BadRequest(CODES_NOT_LIST))
    else None
  }

  /** A submission is rejected for an absent key before anything else is looked at. */
  lemma MissingKeyFirst(body: Body, k: string)
    requires k in REFERRAL_FIELDS && k !in body
    ensures ReferralBodyError(body) == Some(BadRequest(MISSING_FIELDS))
  {
  }

  /** An empty list of support categories is refused (the intake test's case). */
  lemma EmptyCodesRefused(body: Body)
    requires REFERRAL_FIELDS <= body.Keys && ReferralEnumsValid(body)
    requires body["support_category_codes"] == VList([])
    ensures ReferralBodyError(body) == Some(BadRequest(CODES_NOT_LIST))
  {
  }

  /** The status a note is recorded with: the body's, or draft when the key is absent. */
  function NoteStatus(body: Body): Val {
    if "status" in body then body["status"] else VStr(DRAFT)
  }

  /** The progress-note checks, in order: required keys, note type, start
      date, interaction time, meeting location, status. A null date or
      time makes the Python check raise rather than answer. */
  function NoteBodyError(body: Body, fromIsoFormat: string -> bool): (r: Option<Outcome>)
    ensures r.None? <==> NoteBodyValid(body, fromIsoFormat)
    ensures r.Some? && r.value.Internal? ==> NOTE_FIELDS <= body.Keys && (!body["note_start_date"].VStr? || !body["interaction_at"].VStr?)
    ensures r.Some? ==> r.value.BadRequest? || r.value.Internal?
    ensures !(NOTE_FIELDS <= body.Keys) ==> r == Some(BadRequest(MISSING_FIELDS))
    ensures NOTE_FIELDS <= body.Keys && !StrIn(body["note_type"], NOTE_TYPES) ==> r == Some(BadRequest(INVALID_NOTE_TYPE))
    ensures NOTE_FIELDS <= body.Keys && StrIn(body["note_type"], NOTE_TYPES) ==>
              && (body["note_start_date"].VNull? ==> r == Some(Internal(DATE_NOT_STR)))
              && (body["note_start_date"].VStr? && !IsIsoDate(body["note_start_date"].s) ==> r == Some(BadRequest(INVALID_DATE)))
    ensures NOTE_FIELDS <= body.Keys && StrIn(body["note_type"], NOTE_TYPES)
            && body["note_start_date"].VStr? && IsIsoDate(body["note_start_date"].s) ==>
              && (body["interaction_at"].VNull? ==> r == Some(Internal(TIME_NOT_STR)))
              && (body["interaction_at"].VStr? && !IsIsoDateTime(body["interaction_at"].s, fromIsoFormat) ==>
                    r == Some(BadRequest(INVALID_DATETIME)))
    ensures NOTE_FIELDS <= body.Keys && StrIn(body["note_type"], NOTE_TYPES)
            && body["note_start_date"].VStr? && IsIsoDate(body["note_start_date"].s)
            && body["interaction_at"].VStr? && IsIsoDateTime(body["interaction_at"].s, fromIsoFormat) ==>
              && (!StrIn(body["meeting_location"], MEETING_LOCATIONS) ==> r == Some(BadRequest(INVALID_LOCATION)))
              && (StrIn(body["meeting_location"], MEETING_LOCATIONS) && !StrIn(NoteStatus(body), NOTE_STATUSES) ==>
                    r == Some(BadRequest(INVALID_STATUS)))
  {
    if !(NOTE_FIELDS <= body.Keys) then Some(BadRequest(MISSING_FIELDS))
    else if !StrIn(body["note_type"], NOTE_TYPES) then Some(BadRequest(INVALID_NOTE_TYPE))
    else if !body["note_start_date"].VStr? then Some(Internal(DATE_NOT_STR))
    else if !IsIsoDate(body["note_start_date"].s) then Some(BadRequest(INVALID_DATE))
    else if !body["interaction_at"].VStr? then Some(Internal(TIME_NOT_STR))
    else if !IsIsoDateTime(body["interaction_at"].s, fromIsoFormat) then Some(BadRequest(INVALID_DATETIME))
    else if !StrIn(body["meeting_location"], MEETING_LOCATIONS) then Some(BadRequest(INVALID_LOCATION))
    else if !StrIn(NoteStatus(body), NOTE_STATUSES) then Some(BadRequest(INVALID_STATUS))
    else None
  }

  const DATE_NOT_STR := "fromisoformat: argument must be str"
  const TIME_NOT_STR := "'NoneType' object has no attribute 'replace'"

  /** What a note body must satisfy to pass every check before the status one. */
  predicate NoteFieldsValid(body: Body, fromIsoFormat: string -> bool) {
    && NOTE_FIELDS <= body.Keys
    && StrIn(body["note_type"], NOTE_TYPES)
    && body["note_start_date"].VStr? && IsIsoDate(body["note_start_date"].s)
    && body["interaction_at"].VStr? && IsIsoDateTime(body["interaction_at"].s, fromIsoFormat)
    && StrIn(body["meeting_location"], MEETING_LOCATIONS)
  }

  /** What a note body must satisfy to pass every check. */
  predicate NoteBodyValid(body: Body, fromIsoFormat: string -> bool) {
    NoteFieldsValid(body, fromIsoFormat) && StrIn(NoteStatus(body), NOTE_STATUSES)
  }

  /** A body that omits the status is recorded as a draft; one that sends
      null for it is refused. */
  lemma NoteStatusDefault(body: Body)
    ensures "status" !in body ==> NoteStatus(body) == VStr(DRAFT) && StrIn(NoteStatus(body), NOTE_STATUSES)
    ensures "status" in body && body["status"] == VNull ==> !StrIn(NoteStatus(body), NOTE_STATUSES)
  {
  }
}
