/**
 * The `scan_bytes` binding of `bind_yara`: it skips the scan when the Lua
 * callback is invalid, and otherwise scans with a trampoline that turns each
 * libyara message into one call of the Lua callback and hands the
 * callback's result back to libyara.
 */
module Dispatch {
  import opened Wrappers
  import opened LibYara
  import opened Errors
  import opened Lua
  import opened Flags
  import Store

  /** The opaque `message_data` pointer libyara passes with a message. */
  type Address = nat

  /** What the trampoline passes to the Lua callback after the message number. */
  datatype Payload =
    | RuleArg(rule: Address)            // the YR_RULE
    | StringArg(str: Address)           // the YR_STRING
    | LogArg(text: Address)             // the C string, as a Lua string
    | ImportArg(descriptor: Address)    // the YR_MODULE_IMPORT
    | NilArg                            // an explicit nil
    | NoArg                             // no second argument at all

  /** One call of the Lua callback. */
  datatype Invocation = Invocation(message: int, payload: Payload)

  /** The call the trampoline made, if any, and what it returns to libyara or throws. */
  datatype Dispatched = Dispatched(call: Option<Invocation>, result: Result<int, Error>)

  /** The `switch (message)` of the trampoline, on the raw message number. */
  function PayloadOf(message: int, data: Address): Payload {
    if message == CALLBACK_MSG_RULE_NOT_MATCHING || message == CALLBACK_MSG_RULE_MATCHING then RuleArg(data)
    else if message == CALLBACK_MSG_SCAN_FINISHED then NilArg
    else if message == CALLBACK_MSG_TOO_MANY_MATCHES then StringArg(data)
    else if message == CALLBACK_MSG_CONSOLE_LOG then LogArg(data)
    else if message == CALLBACK_MSG_IMPORT_MODULE then ImportArg(data)
    else NoArg
  }

  /** The kinds of payload, without the pointer. */
  datatype Shape = RuleShape | StringShape | LogShape | ImportShape | NilShape | NoShape

  function ShapeOf(p: Payload): Shape {
    match p
    case RuleArg(_) => RuleShape
    case StringArg(_) => StringShape
    case LogArg(_) => LogShape
    case ImportArg(_) => ImportShape
    case NilArg => NilShape
    case NoArg => NoShape
  }

  /** Reference table: the payload each message kind of `YaraFlags` is to carry. */
  function ExpectedShape(kind: Option<Flag>): Shape {
    match kind
    case Some(RuleMatching) => RuleShape
    case Some(RuleNotMatching) => RuleShape
    case Some(ScanFinished) => NilShape
    case Some(TooManyMatches) => StringShape
    case Some(ConsoleLog) => LogShape
    case Some(ImportModule) => ImportShape
    case _ => NoShape
  }

  /**
   * The trampoline's `switch` agrees with the table for every message number,
   * and every payload that has a pointer carries libyara's `message_data`.
   */
  lemma PayloadFollowsTable(message: int, data: Address)
    ensures ShapeOf(PayloadOf(message, data)) == ExpectedShape(MessageKind(message))
    ensures PayloadOf(message, data) !in {NilArg, NoArg} ==>
      PayloadOf(message, data) in {RuleArg(data), StringArg(data), LogArg(data), ImportArg(data)}
  {
  }

  /** Module-imported and too-slow-scanning messages reach Lua with no payload. */
  lemma UnlistedKindsCarryNothing(f: Flag, data: Address)
    requires IsMessage(f) && f != RuleMatching && f != RuleNotMatching && f != ScanFinished
    requires f != TooManyMatches && f != ConsoleLog && f != ImportModule
    ensures PayloadOf(Value(f), data) == NoArg
  {
    MessageKindOfValue(f);
    PayloadFollowsTable(Value(f), data);
  }

  /**
   * The trampoline for one message. `userData` is the callback pointer;
   * `lua` is what the callback returns, already converted to the `int`
   * the trampoline returns. With no valid callback every message gets
   * `CALLBACK_CONTINUE` and nothing is called; otherwise the callback is
   * called once, a Lua error throws `Runtime` (the `return CALLBACK_ABORT`
   * after the throw is never reached), and its result is returned unchanged.
   */
  function Trampoline(userData: Option<LuaFunction>, message: int, data: Address,
                      lua: (LuaFunction, Invocation) -> Reply<int>): (d: Dispatched)
    ensures userData.None? || !userData.value.valid ==>
      d == Dispatched(None, Success(CALLBACK_CONTINUE))
    ensures userData.Some? && userData.value.valid ==>
      var call := Invocation(message, PayloadOf(message, data));
      && d.call == Some(call)
      && (d.result.Failure? <==> lua(userData.value, call).Raised?)
      && (d.result.Failure? ==> d.result.error == Runtime)
      && (d.result.Success? ==> d.result.value == lua(userData.value, call).value)
  {
    if userData.None? || !userData.value.valid then Dispatched(None, Success(CALLBACK_CONTINUE))
    else
      var call := Invocation(message, PayloadOf(message, data));
      match lua(userData.value, call)
      case Raised => Dispatched(Some(call), Failure(Runtime))
      case Returned(code) => Dispatched(Some(call), Success(code))
  }

  /** The trampoline never answers `CALLBACK_ABORT` on its own: that code comes only from Lua. */
  lemma NoAbortOfItsOwn(userData: Option<LuaFunction>, message: int, data: Address,
                        lua: (LuaFunction, Invocation) -> Reply<int>)
    requires Trampoline(userData, message, data, lua).result == Success(CALLBACK_ABORT)
    ensures userData.Some? && userData.value.valid
    ensures lua(userData.value, Invocation(message, PayloadOf(message, data))) == Returned(CALLBACK_ABORT)
  {
  }

  /** One message libyara delivers to the callback during a scan, with its `message_data`. */
  datatype Message = Message(number: int, data: Address)

  /** The call of the Lua callback the trampoline makes for `m`. */
  function Call(m: Message): Invocation {
    Invocation(m.number, PayloadOf(m.number, m.data))
  }

  /** The callback calls a scan made, and whether the scan ran to its end or the trampoline threw. */
  datatype Delivered = Delivered(calls: seq<Invocation>, outcome: Outcome<Error>)

  /**
   * A scan hands `messages` to the trampoline one at a time, in order. An
   * exception the trampoline throws unwinds through libyara and ends the
   * scan: later messages are never delivered.
   */
  function Deliver(userData: Option<LuaFunction>, messages: seq<Message>,
                   lua: (LuaFunction, Invocation) -> Reply<int>): (d: Delivered)
    ensures d.outcome.Fail? ==> d.outcome.error == Runtime
    ensures |d.calls| <= |messages|
  {
    if messages == [] then Delivered([], Pass)
    else
      var t := Trampoline(userData, messages[0].number, messages[0].data, lua);
      var made := if t.call.Some? then [t.call.value] else [];
      if t.result.Failure? then Delivered(made, Fail(t.result.error))
      else
        var rest := Deliver(userData, messages[1..], lua);
        Delivered(made + rest.calls, rest.outcome)
  }

  /**
   * The scan calls `func` once per message, in order, with the payload the
   * table prescribes. It runs to its end exactly when every call returns;
   * otherwise it throws right after the first call that raised, and makes no
   * call after it.
   */
  predicate CallsInOrder(func: LuaFunction, messages: seq<Message>, lua: (LuaFunction, Invocation) -> Reply<int>)
  {
    var d := Deliver(Some(func), messages, lua);
    && (forall i :: 0 <= i < |d.calls| ==> d.calls[i] == Call(messages[i]))
    && (d.outcome.Pass? <==> forall i :: 0 <= i < |messages| ==> lua(func, Call(messages[i])).Returned?)
    && (d.outcome.Pass? ==> |d.calls| == |messages|)
    && (d.outcome.Fail? ==> 0 < |d.calls| && lua(func, Call(messages[|d.calls| - 1])).Raised?)
    && (forall i :: 0 <= i < |d.calls| - 1 ==> lua(func, Call(messages[i])).Returned?)
  }

  /** With the binding's valid function as user data, the scan calls it as `CallsInOrder` says. */
  lemma {:induction false} DeliverToValid(func: LuaFunction, messages: seq<Message>,
                                          lua: (LuaFunction, Invocation) -> Reply<int>)
    requires func.valid
    ensures CallsInOrder(func, messages, lua)
  {
    if messages != [] {
      var m := messages[0];
      var t := Trampoline(Some(func), m.number, m.data, lua);
      assert t.call == Some(Call(m));
      if t.result.Success? {
        DeliverToValid(func, messages[1..], lua);
        FirstReturned(func, messages, lua);
      } else {
        assert Deliver(Some(func), messages, lua) == Delivered([Call(m)], Fail(Runtime));
      }
    }
  }

  /** A first call that returns, followed by calls in order for the rest, is calls in order for all. */
  lemma FirstReturned(func: LuaFunction, messages: seq<Message>, lua: (LuaFunction, Invocation) -> Reply<int>)
    requires func.valid && messages != []
    requires lua(func, Call(messages[0])).Returned?
    requires CallsInOrder(func, messages[1..], lua)
    ensures CallsInOrder(func, messages, lua)
  {
    var m := messages[0];
    var d := Deliver(Some(func), messages, lua);
    var rest := Deliver(Some(func), messages[1..], lua);
    assert Trampoline(Some(func), m.number, m.data, lua) == Dispatched(Some(Call(m)), Success(lua(func, Call(m)).value));
    assert d == Delivered([Call(m)] + rest.calls, rest.outcome);
    forall i | 0 < i < |messages| ensures messages[1..][i - 1] == messages[i] {
    }
    forall i | 0 <= i < |d.calls| ensures d.calls[i] == Call(messages[i]) {
      if i > 0 {
        assert d.calls[i] == rest.calls[i - 1];
      }
    }
    if forall i :: 0 <= i < |messages| ==> lua(func, Call(messages[i])).Returned? {
      forall j | 0 <= j < |messages[1..]| ensures lua(func, Call(messages[1..][j])).Returned? {
        assert messages[1..][j] == messages[j + 1];
      }
    }
  }

  /** Without a valid callback every message is answered without calling Lua, and the scan runs on. */
  lemma {:induction false} DeliverWithoutCallback(userData: Option<LuaFunction>, messages: seq<Message>,
                                                  lua: (LuaFunction, Invocation) -> Reply<int>)
    requires userData.None? || !userData.value.valid
    ensures Deliver(userData, messages, lua) == Delivered([], Pass)
  {
    if messages != [] {
      DeliverWithoutCallback(userData, messages[1..], lua);
    }
  }

  /**
   * The `scan_bytes` binding: with an invalid Lua function return at once
   * without scanning; otherwise `Yara::scan_bytes` with the trampoline and
   * the function as user data. `messages` are the messages libyara
   * delivers during the scan.
   */
  method ScanWithLua(y: Store.Yara, buffer: seq<Byte>, func: LuaFunction, flags: int,
                     messages: seq<Message>, lua: (LuaFunction, Invocation) -> Reply<int>, scanResult: int)
    returns (call: Option<Store.ScanCall<LuaFunction>>, calls: seq<Invocation>, r: Outcome<Error>)
    ensures !func.valid ==> call.None? && calls == [] && r == Pass
    ensures func.valid ==> (call.Some? <==> y.compiler.Some? && y.rules.Some?)
    ensures func.valid && call.None? ==> calls == [] && r == Fail(Scan)
    ensures call.Some? ==> call.value == Store.ScanCall(y.rules.value, buffer, flags, func)
    ensures call.Some? ==> calls == Deliver(Some(func), messages, lua).calls
    ensures call.Some? ==> (r == Fail(Runtime) <==> Deliver(Some(func), messages, lua).outcome.Fail?)
    ensures call.Some? && Deliver(Some(func), messages, lua).outcome.Pass? ==>
      (r.Fail? <==> scanResult == ERROR_INTERNAL_FATAL_ERROR) && (r.Fail? ==> r.error == Scan)
  {
    if !func.valid {
      return None, [], Pass;
    }
    var d := Deliver(Some(func), messages, lua);
    call, r := y.ScanBytes(buffer, flags, func, d.outcome, scanResult);
    calls := if call.Some? then d.calls else [];
  }

  /**
   * A Lua error in the callback escapes `scan_bytes` as `Runtime`: when the
   * first message's call raises, the scan makes that one call and throws,
   * whatever the scan itself would have returned.
   */
  method CallbackErrorEscapes(y: Store.Yara, buffer: seq<Byte>, func: LuaFunction, flags: int,
                              messages: seq<Message>, lua: (LuaFunction, Invocation) -> Reply<int>,
                              scanResult: int)
    returns (call: Option<Store.ScanCall<LuaFunction>>, calls: seq<Invocation>, r: Outcome<Error>)
    requires func.valid && y.compiler.Some? && y.rules.Some?
    requires |messages| > 0 && lua(func, Call(messages[0])).Raised?
    ensures call.Some? && calls == [Call(messages[0])] && r == Fail(Runtime)
  {
    DeliverToValid(func, messages, lua);
    call, calls, r := ScanWithLua(y, buffer, func, flags, messages, lua, scanResult);
  }
}
