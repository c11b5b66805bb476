/** Values shared by every part of the workflow model: request bodies, the
    calling identity, handler outcomes and the rows of the four tables. */
module Domain {

  datatype Option<+T> = None | Some(value: T)

  /** A JSON value of a request body as the handlers use it: a string, an
      array of strings, or null. */
  datatype Val = VStr(s: string) | VList(items: seq<string>) | VNull

  /** A parsed JSON object body; a key is present iff it is in the map. */
  type Body = map<string, Val>

  /** Python's `body.get(key)`: an absent key reads as null. */
  function Get(body: Body, key: string): Val {
    if key in body then body[key] else VNull
  }

  /** Python truthiness: non-empty strings and non-empty lists. */
  predicate PyTruthy(v: Val) {
    match v
    case VStr(s) => s != ""
    case VList(xs) => xs != []
    case VNull => false
  }

  /** JavaScript truthiness: non-empty strings and every array, the empty one included. */
  predicate JsTruthy(v: Val) {
    match v
    case VStr(s) => s != ""
    case VList(_) => true
    case VNull => false
  }

  /** A value as a nullable text column receives it. */
  function AsText(v: Val): Option<string> {
    if v.VStr? then Some(v.s) else None
  }

  /** Membership of a body value in a vocabulary of strings: null is never a member. */
  predicate StrIn(v: Val, vocabulary: set<string>) {
    v.VStr? && v.s in vocabulary
  }

  /** The typed-body assumption for one operation: each of `keys` that is
      present holds a string or null, never a list. */
  predicate ScalarFields(body: Body, keys: set<string>) {
    forall k | k in keys && k in body :: !body[k].VList?
  }

  /** The caller as the bearer-token table resolves it. */
  datatype Identity = Identity(userId: string, tenantId: string, role: string)

  /** What a handler answers: the new row's id and status, or a typed failure.
      `Internal` is a failure of the store (a 500 in the Next.js routes, an
      uncaught exception in the Python server). */
  datatype Outcome =
    | Ok(id: string, status: string)
    | BadRequest(detail: string)
    | NotFound(detail: string)
    | Forbidden(detail: string)
    | Internal(detail: string)
  {
    /** The HTTP status a Next.js route sends for this outcome. */
    function StatusCode(): (code: int)
      ensures code == 200 <==> Ok?
      ensures code == 400 <==> BadRequest?
      ensures code == 404 <==> NotFound?
      ensures code == 403 <==> Forbidden?
      ensures code == 500 <==> Internal?
    {
      match this
      case Ok(_, _) => 200
      case BadRequest(_) => 400
      case NotFound(_) => 404
      case Forbidden(_) => 403
      case Internal(_) => 500
    }

    /** The status `main.py` sends: the same for every answered outcome, and
        none for `Internal`, whose exception escapes `do_POST` so that the
        connection closes without a status line. */
    function PythonStatus(): (code: Option<int>)
      ensures code.None? <==> Internal?
      ensures code.Some? ==> code.value == StatusCode() && code.value != 500
    {
      if Internal? then None else Some(StatusCode())
    }
  }

  /** A stored multi-valued field: `main.py` stores the comma-joined text,
      the Next.js routes store the array itself. */
  datatype Codes = Joined(text: string) | Array(items: seq<string>)

  datatype Employee = Employee(tenantId: string, firstName: string, lastName: string, email: Option<string>)

  datatype Referral = Referral(
    tenantId: string,
    intakePath: string,
    sourceType: string,
    employeeId: string,
    status: string,
    riskLevel: string,
    supportCategoryCodes: Codes,
    submittedBy: string,
    assignedCoordinatorId: Option<string>,
    submittedAt: string,
    firstResponseAt: Option<string>)

  datatype Case = Case(
    tenantId: string,
    employeeId: string,
    referralId: Option<string>,
    assignedCoordinatorId: string,
    status: string,
    openedAt: string)

  datatype Note = Note(
    tenantId: string,
    employeeId: string,
    caseId: string,
    coordinatorId: string,
    noteType: string,
    noteStartDate: string,
    interactionAt: string,
    meetingLocation: string,
    areasOfNeedCodes: Codes,
    summary: Option<string>,
    status: string,
    createdAt: string)

  /** The four tables, each keyed by row id. */
  datatype Tables = Tables(
    employees: map<string, Employee>,
    referrals: map<string, Referral>,
    cases: map<string, Case>,
    notes: map<string, Note>)

  /** One handler run: its answer and the tables afterwards. */
  datatype Step = Step(out: Outcome, next: Tables)

  // The detail messages the handlers send.
  const MISSING_FIELDS := "Missing required fields"
  const INVALID_REFERRAL_ENUM := "Invalid intake/source/risk enum"
  const CODES_NOT_LIST := "support_category_codes must be a non-empty array"
  const EMPLOYEE_NOT_FOUND := "Employee not found"
  const CROSS_TENANT := "Cross-tenant access denied"
  const REFERRAL_NOT_FOUND := "Referral not found"
  const REFERRAL_MISMATCH := "Referral/employee mismatch"
  const INVALID_NOTE_TYPE := "Invalid note_type"
  const INVALID_DATE := "note_start_date must be ISO date (YYYY-MM-DD)"
  const INVALID_DATETIME := "interaction_at must be ISO datetime"
  const INVALID_LOCATION := "Invalid meeting_location"
  const INVALID_STATUS := "Invalid status"
  const CASE_NOT_FOUND := "Case not found"
  const CASE_MISMATCH := "Employee/case mismatch"
  const COORDINATOR_NOT_NULL := "NOT NULL constraint failed: cases.assigned_coordinator_id"
}
