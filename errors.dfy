/**
 * The exceptions the core throws. Only the kind is modelled, plus the path
 * that `LoadRules` names; the message text is not.
 */
module Errors {

  datatype Error =
    | Initialize          // yara::exception::Initialize: engine or compiler start-up failed
    | CompilerRules       // yara::exception::CompilerRules: compiling the rule set failed
    | LoadRules(path: seq<char>)  // yara::exception::LoadRules: a folder or a rule file could not be loaded
    | Scan                // yara::exception::Scan: scan precondition or fatal scan error
    | Runtime             // lua::exception::Runtime: a Lua callback failed or is missing
}
