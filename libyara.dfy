/**
 * The libyara constants the binding compares against or returns.
 * Their values are those of libyara's public headers (error.h, types.h),
 * which are not part of this model.
 */
module LibYara {

  // Return codes of libyara calls
  const ERROR_SUCCESS: int := 0
  const ERROR_INSUFFICIENT_MEMORY: int := 1
  const ERROR_INVALID_FILE: int := 6
  const ERROR_INTERNAL_FATAL_ERROR: int := 31

  // Messages a scan delivers to its callback
  const CALLBACK_MSG_RULE_MATCHING: int := 1
  const CALLBACK_MSG_RULE_NOT_MATCHING: int := 2
  const CALLBACK_MSG_SCAN_FINISHED: int := 3
  const CALLBACK_MSG_IMPORT_MODULE: int := 4
  const CALLBACK_MSG_MODULE_IMPORTED: int := 5
  const CALLBACK_MSG_TOO_MANY_MATCHES: int := 6
  const CALLBACK_MSG_CONSOLE_LOG: int := 7
  const CALLBACK_MSG_TOO_SLOW_SCANNING: int := 8

  // Codes a scan callback returns
  const CALLBACK_CONTINUE: int := 0
  const CALLBACK_ABORT: int := 1
  const CALLBACK_ERROR: int := 2

  // Scan flags
  const SCAN_FLAGS_FAST_MODE: int := 1
  const SCAN_FLAGS_PROCESS_MEMORY: int := 2
  const SCAN_FLAGS_NO_TRYCATCH: int := 4
  const SCAN_FLAGS_REPORT_RULES_MATCHING: int := 8
  const SCAN_FLAGS_REPORT_RULES_NOT_MATCHING: int := 16

  /** The C type `size_t` on a 64-bit target. */
  const SIZE_MODULUS: int := 0x1_0000_0000_0000_0000
  type SizeT = x: int | 0 <= x < SIZE_MODULUS

  /** Byte as stored in a C buffer. */
  type Byte = bv8
}
