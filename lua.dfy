/**
 * What the binding sees of the Lua host: a reference to a Lua function and
 * the result of calling it in protected mode.
 */
module Lua {

  /** A `sol::function`; `valid` is false when it refers to nil. */
  datatype LuaFunction = LuaFunction(id: nat, valid: bool)

  /**
   * A `sol::protected_function_result`: the call returned `value`, or the
   * Lua code raised an error (`valid()` is false).
   */
  datatype Reply<+T> = Returned(value: T) | Raised
}
