/**
 * The `yara::type::Flags` enumeration exported to Lua as `YaraFlags`: one
 * name per scan message kind, callback return code and scan flag, each
 * standing for the libyara constant of the same meaning.
 */
module Flags {
  import opened Wrappers
  import opened LibYara

  datatype Flag =
    // Callback message types
    | RuleMatching | RuleNotMatching | ScanFinished | ImportModule
    | ModuleImported | TooManyMatches | ConsoleLog | TooSlowScanning
    // Callback return codes
    | ContinueScan | AbortScan | ErrorScan
    // Scan flags
    | FastMode | ProcessMemory | NoTryCatch | ReportRulesMatching | ReportRulesNotMatching

  /** The integer an enumerator stands for. */
  function Value(f: Flag): int {
    match f
    case RuleMatching => CALLBACK_MSG_RULE_MATCHING
    case RuleNotMatching => CALLBACK_MSG_RULE_NOT_MATCHING
    case ScanFinished => CALLBACK_MSG_SCAN_FINISHED
    case ImportModule => CALLBACK_MSG_IMPORT_MODULE
    case ModuleImported => CALLBACK_MSG_MODULE_IMPORTED
    case TooManyMatches => CALLBACK_MSG_TOO_MANY_MATCHES
    case ConsoleLog => CALLBACK_MSG_CONSOLE_LOG
    case TooSlowScanning => CALLBACK_MSG_TOO_SLOW_SCANNING
    case ContinueScan => CALLBACK_CONTINUE
    case AbortScan => CALLBACK_ABORT
    case ErrorScan => CALLBACK_ERROR
    case FastMode => SCAN_FLAGS_FAST_MODE
    case ProcessMemory => SCAN_FLAGS_PROCESS_MEMORY
    case NoTryCatch => SCAN_FLAGS_NO_TRYCATCH
    case ReportRulesMatching => SCAN_FLAGS_REPORT_RULES_MATCHING
    case ReportRulesNotMatching => SCAN_FLAGS_REPORT_RULES_NOT_MATCHING
  }

  /** The enumerators that name a scan message kind. */
  predicate IsMessage(f: Flag) {
    f.RuleMatching? || f.RuleNotMatching? || f.ScanFinished? || f.ImportModule?
    || f.ModuleImported? || f.TooManyMatches? || f.ConsoleLog? || f.TooSlowScanning?
  }

  /** The message kind a raw message number stands for, if any. */
  function MessageKind(m: int): (k: Option<Flag>)
    ensures k.Some? ==> IsMessage(k.value) && Value(k.value) == m
    ensures k.None? ==> m < CALLBACK_MSG_RULE_MATCHING || m > CALLBACK_MSG_TOO_SLOW_SCANNING
  {
    if m == CALLBACK_MSG_RULE_MATCHING then Some(RuleMatching)
    else if m == CALLBACK_MSG_RULE_NOT_MATCHING then Some(RuleNotMatching)
    else if m == CALLBACK_MSG_SCAN_FINISHED then Some(ScanFinished)
    else if m == CALLBACK_MSG_IMPORT_MODULE then Some(ImportModule)
    else if m == CALLBACK_MSG_MODULE_IMPORTED then Some(ModuleImported)
    else if m == CALLBACK_MSG_TOO_MANY_MATCHES then Some(TooManyMatches)
    else if m == CALLBACK_MSG_CONSOLE_LOG then Some(ConsoleLog)
    else if m == CALLBACK_MSG_TOO_SLOW_SCANNING then Some(TooSlowScanning)
    else None
  }

  /** Every message kind is recovered from its number: message numbers are distinct. */
  lemma MessageKindOfValue(f: Flag)
    requires IsMessage(f)
    ensures MessageKind(Value(f)) == Some(f)
  {
  }
}
