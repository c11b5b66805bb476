/** The closed vocabularies the handlers validate against, and the status
    words they write. */
module Vocabulary {

  const MEETING_LOCATIONS: set<string> := {"office", "garage", "newberry", "community", "phone", "video", "text", "email"}
  const NOTE_TYPES: set<string> := {"intake", "coaching_session", "resource_referral", "crisis", "follow_up"}
  const RISK_LEVELS: set<string> := {"low", "medium", "high", "critical"}
  const SOURCE_TYPES: set<string> := {"employee_self", "manager", "coordinator", "hr", "anonymous_other"}
  const INTAKE_PATHS: set<string> := {"referral", "direct_engagement"}

  /** The statuses a progress note may be recorded with in `main.py`. */
  const NOTE_STATUSES: set<string> := {"draft", "final"}
  const DRAFT := "draft"
  const FINAL := "final"

  const SUBMITTED := "submitted"
  const CONVERTED := "converted_to_case"
  const OPEN := "open"

  /** Each vocabulary holds its listed words, all distinct: eight meeting
      locations, five note types, four risk levels, five source types and
      two intake paths. */
  lemma VocabularySizes()
    ensures |MEETING_LOCATIONS| == 8 && |NOTE_TYPES| == 5 && |RISK_LEVELS| == 4
    ensures |SOURCE_TYPES| == 5 && |INTAKE_PATHS| == 2
  {
  }

  /** The case statuses the KPI read counts as open. */
  const OPEN_LIKE: set<string> := {"open", "active_support"}
}
