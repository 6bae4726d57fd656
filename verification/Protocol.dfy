/** The numbers and tokens of protocol v1 (`protocol.rs`). */
module Protocol {
  const CODE_READY := 0
  const CODE_PENDING := 1
  const CODE_FAILED := 2
  const CODE_CANCELED := 3
  const CODE_BAD_REQUEST := 4
  const CODE_UNKNOWN_JOB := 5
  const CODE_BUSY := 6

  const MAX_TEXT := 500
  const RID_MAX := 999_999_999
  const U32_MAX := 0xFFFF_FFFF
  const UPSTREAM_MAX_BODY := 262_144

  const REASON_PENDING := "pending"
  const REASON_TIMEOUT := "timeout"
  const REASON_EMPTY_REPLY := "empty_reply"
  const REASON_SUPERSEDED := "superseded"
  const REASON_CANCELED := "canceled"
  const REASON_CONFLICT := "conflict"
  const REASON_TOO_LONG := "too_long"
  const REASON_UNKNOWN_JOB := "unknown_job"
  const REASON_BUSY := "busy"
}
