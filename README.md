# yara-l rule store, folder loader and Lua trampolines in Dafny

yara-l is a Lua binding around libyara. This project models the three parts of it that hold
logic of their own:

- **The rule store** `yara::Yara` (`sources/yara/yara.cxx`). It is a class with two nullable
  handles: the compiler and the compiled rule set. Its methods create, overwrite, destroy and
  test these handles. Each libyara call is a parameter: the code the call returns and, for calls
  that fill in a handle, the handle left in the out-parameter. A ghost log `released` records
  every destroy and finalize call. `Valid()` says the store never holds a handle it has
  destroyed, and every method that keeps a store in use preserves it.
- **The recursive folder loader** `set_rules_folder`. It runs over an in-memory directory tree:
  entries come in `readdir` order, `open` succeeds on readable nodes, and the compiler's answer
  to each file is a function `lib`. The method is proved equal to a specification function
  `Walk`. Lemmas then relate `Walk` to an independent definition, `Sources`: the rule files
  a folder holds.
- **The Lua trampolines** (`sources/yara/extend/yara.cxx`). These are the stream read and
  write adapters, including `size_t` arithmetic and the copy into the caller's buffer. They also
  include the scan dispatcher, which maps a message number to the payload passed to Lua, and the
  `scan_bytes` binding.

Files: `wrappers.dfy` (Option/Result/Outcome), `libyara.dfy` (libyara constants),
`flags.dfy` (the `Flags` enum), `errors.dfy` (exception kinds), `lua.dfy` (Lua function
references and protected-call results), `paths.dfy`, `folder.dfy`, `store.dfy`, `stream.dfy`,
`dispatch.dfy`.

The numeric values of the libyara constants are those of libyara's own headers (`error.h`,
`types.h`). libyara's headers are not part of this model.

Behaviour of the code that the model keeps:
- The destructor calls `yr_finalize` first, and only then destroys the compiler and the rule
  set.
- The scan trampoline throws `Runtime` on a Lua error. It does not return an abort code, and its
  `return CALLBACK_ABORT` is unreachable. The exception unwinds through the scan and out of
  `scan_bytes`.
- The namespace is `std::filesystem::path(p).filename()`, so a folder given with a trailing `/`
  gives the empty namespace.
- The `.yar` extension test comes before the directory test. A directory named `x.yar` is
  therefore added as a file, not recursed into.
- `scan_bytes` demands the compiler as well as the rule set.

## Model

| member | source | states |
|---|---|---|
| `Flags.MessageKind` | include/yara/entitys.hxx:12-20 | a raw message number maps to the message enumerator of that value, or to none outside 1..8 |
| `Flags.MessageKindOfValue` | include/yara/entitys.hxx:12-20 | each message enumerator is recovered from its number, so the message numbers are distinct |
| `Store.CompileFailed` | sources/yara/yara.cxx:242-243 | the failure test (not success, or insufficient memory) holds exactly when the code is not `ERROR_SUCCESS` |
| `Store.Yara.Blank` | sources/yara/yara.cxx:14 | the member initialisers leave both handles null |
| `Store.Yara.Create` | sources/yara/yara.cxx:14-28 | construction fails with `Initialize` exactly when engine init or compiler creation does not succeed; on success the compiler handle is the created one, no rule set is held and nothing was destroyed |
| `Store.Yara.LoadCompiler` | sources/yara/yara.cxx:30-34 | the compiler field becomes what `yr_compiler_create` left, and its code is returned; the rule set and the release log are unchanged |
| `Store.Yara.UnloadCompiler` | sources/yara/yara.cxx:36-44 | afterwards no compiler is held; a held compiler is destroyed once, and an absent one means no change (idempotent); the rule set is untouched |
| `Store.Yara.UnloadRules` | sources/yara/yara.cxx:46-57 | afterwards no rule set is held, whatever the destroy returned; a held rule set is destroyed once, and an absent one means no change; the compiler is untouched |
| `Store.UnloadRulesTwice` | sources/yara/yara.cxx:46-57 | a second `unload_rules` adds no destroy call |
| `Store.Yara.LoadRulesFile` | sources/yara/yara.cxx:110-114 | the rule-set field is overwritten with the handle `yr_rules_load` leaves for the given path, its code is returned, and the compiler is untouched; a previously held rule set is dropped without being destroyed |
| `Store.Yara.LoadRulesStream` | sources/yara/yara.cxx:132-136 | the same overwrite, and the same drop without destroy, for loading from a stream |
| `Store.Yara.CompilerRules` | sources/yara/yara.cxx:235-249 | throws `CompilerRules` exactly when `yr_compiler_get_rules` does not return `ERROR_SUCCESS`; the rule-set field is overwritten either way, and nothing is destroyed |
| `Store.Yara.LoadRules` | sources/yara/yara.cxx:230-233 | behaves as `compiler_rules` |
| `Store.Yara.SetRuleFile` | sources/yara/yara.cxx:165-181 | when `open` fails, returns `ERROR_INVALID_FILE` without calling the compiler; otherwise returns the compiler's add result |
| `Store.Yara.SetRulesFolder` | sources/yara/yara.cxx:191-228 | the `readdir` loop with recursion makes exactly the `set_rule_file` calls of `Walk`, and returns or throws as `Walk` does |
| `Store.Yara.LoadEntry` | sources/yara/yara.cxx:201-223 | one iteration of the `readdir` loop does what `Step` specifies: skip `.`/`..`, add a `.yar` file and throw on its failure, descend into a folder, ignore the rest |
| `Store.Yara.ScanBytes` | sources/yara/yara.cxx:251-279 | one scan call on the held rule set, with the caller's callback user data, exactly when both handles are present; `Scan` when a handle is absent; an exception the callback throws during the scan leaves `scan_bytes` unchanged; otherwise `Scan` exactly when the scan returned `ERROR_INTERNAL_FATAL_ERROR` |
| `Store.ScanAfterUnloadCompiler` | sources/yara/yara.cxx:258 | after `unload_compiler` a scan throws `Scan` and does not scan, even with rules loaded |
| `Store.Yara.Dispose` | sources/yara/yara.cxx:144-163 | teardown never throws; it finalizes the engine, then destroys the held compiler, then the held rule set |
| `Paths.LastIndexOf` | sources/yara/yara.cxx:207 | the result is the last position holding the character, or none when it does not occur |
| `Paths.Extension` | sources/yara/yara.cxx:207 | an extension is a suffix of the name that starts with `.` and is shorter than the name |
| `Paths.YarExtensionIsSuffix` | sources/yara/yara.cxx:207 | a name passes the `.yar` test exactly when it ends in `.yar` with at least one character before it (a hidden `.yar` does not pass) |
| `Paths.LastComponent` | sources/yara/yara.cxx:211-212 | the namespace is a suffix of the folder path that contains no `/` and starts right after the path's last `/`, or is the whole path when it has none |
| `Paths.SlashFreeIsOwnComponent` | sources/yara/yara.cxx:211-212 | a folder path without `/` is its own namespace |
| `Paths.Parent` | sources/yara/yara.cxx:205 | the parent is a prefix of the path (empty when the path has no `/`); it only serves to say where a rule source lies, and `LastComponentOfJoin` pins it for every joined path |
| `Paths.LastComponentOfJoin` | sources/yara/yara.cxx:205-212 | for `path + "/" + name` the last component is `name` and the parent is `path`, so a subfolder's namespace is its entry name |
| `Paths.TrailingSlashHasEmptyLastComponent` | sources/yara/yara.cxx:211-212 | a folder path ending in `/` yields the empty namespace |
| `Folder.Files` | sources/yara/yara.cxx:209-213 | the files of the attempts, position by position |
| `Folder.StepSound` | sources/yara/yara.cxx:201-223 | one loop iteration keeps the earlier calls; it calls exactly the entry's rule sources when it returns, a prefix of them when it throws, and only its last call may fail |
| `Folder.WalkFromSound` | sources/yara/yara.cxx:199-225 | the loop from any entry on, after successful calls, stops at its first failure and makes a prefix of the remaining entries' rule sources (all of them when it returns) |
| `Folder.StepComplete` | sources/yara/yara.cxx:201-223 | an iteration returns when its node can be opened and the compiler accepts each of its rule sources |
| `Folder.WalkFromComplete` | sources/yara/yara.cxx:199-225 | the loop from any entry on returns when every node can be opened and the compiler accepts every remaining rule source |
| `Folder.WalkComplete` | sources/yara/yara.cxx:191-228 | on a folder whose every node can be opened and whose every rule source the compiler accepts, the walk returns having added exactly the rule sources, in order |
| `Folder.WalkSound` | sources/yara/yara.cxx:191-228 | the calls made are a prefix of the folder's rule sources in order (all of them when the walk returns); only the last call may fail, and a failed call throws `LoadRules` naming its path; every exception is `LoadRules` |
| `Folder.StepFaithful` | sources/yara/yara.cxx:201-223 | on openable nodes, an iteration records the compiler's own code for each call it makes, and throws only right after a call the compiler rejected |
| `Folder.WalkFromFaithful` | sources/yara/yara.cxx:199-225 | the loop from any entry on keeps every recorded code equal to the compiler's answer, and throws only right after a rejected call |
| `Folder.WalkFaithful` | sources/yara/yara.cxx:191-228 | on a folder whose every node can be opened, every call's code is the compiler's answer for that file, and a walk that throws does so right after a call the compiler rejected |
| `Folder.WalkStopsAtFirstRejection` | sources/yara/yara.cxx:207-220 | on a folder whose every node can be opened, when the compiler rejects the k-th rule source and accepts all before it, the walk calls exactly the first k+1 rule sources and throws `LoadRules` naming the k-th |
| `Folder.SourcesWellPlaced` | sources/yara/yara.cxx:201-213 | every rule source has the `.yar` extension, path `parent + "/" + name`, namespace equal to the parent's last component, and lies under the root folder |
| `Stream.TotalSize` | sources/yara/extend/yara.cxx:161 | `size * count` wraps modulo 2^64 and never exceeds the true product |
| `Stream.BytesRead` | sources/yara/extend/yara.cxx:173 | the bytes copied are the smaller of the request and the returned data |
| `Stream.ElementsRead` | sources/yara/extend/yara.cxx:177 | `bytes_read / size` is at most `count` and is the floor quotient |
| `Stream.ReadTrampoline` | sources/yara/extend/yara.cxx:145-178 | asks Lua for exactly `size * count` bytes, copies the smaller of that and the returned length into the buffer, leaves the rest untouched and returns whole elements; a null `user_data` or a Lua error throws `Runtime` and leaves the buffer as it was |
| `Stream.WriteTrampoline` | sources/yara/extend/yara.cxx:189-219 | hands Lua exactly the first `size * count` bytes and returns `count`; a null `user_data` or a Lua error throws `Runtime` |
| `Stream.YrStream.constructor` | sources/yara/extend/yara.cxx:132-135 | a new stream has null `user_data` and no trampolines |
| `Stream.YrStream.BindRead` | sources/yara/extend/yara.cxx:137-145 | setting `read` overwrites the shared `user_data` and installs the read trampoline |
| `Stream.YrStream.BindWrite` | sources/yara/extend/yara.cxx:181-189 | setting `write` overwrites the shared `user_data` and installs the write trampoline |
| `Stream.YrStream.Read` | sources/yara/extend/yara.cxx:145-178 | a read through the stream calls the function held in `user_data`; it throws `Runtime` exactly when that raises, leaving the buffer as it was; otherwise it copies the smaller of `size * count` and the returned length, leaves the rest untouched and returns whole elements |
| `Stream.LastBindingWins` | sources/yara/extend/yara.cxx:142-143 | after setting `read` and then `write`, reading calls the write function and copies the bytes it returned (throwing `Runtime`, buffer unchanged, when it raises) |
| `Dispatch.PayloadFollowsTable` | sources/yara/extend/yara.cxx:280-321 | for every message number the payload shape matches the per-kind table (rule, nil, string, log text, import descriptor, none), and carries libyara's `message_data` |
| `Dispatch.UnlistedKindsCarryNothing` | sources/yara/extend/yara.cxx:318-320 | module-imported and too-slow-scanning messages are passed with no payload |
| `Dispatch.Trampoline` | sources/yara/extend/yara.cxx:267-332 | a null or invalid callback yields `CALLBACK_CONTINUE` without any call; otherwise exactly one call with the message and its payload; a Lua error throws `Runtime`, and any other result is returned unchanged |
| `Dispatch.NoAbortOfItsOwn` | sources/yara/extend/yara.cxx:323-331 | the trampoline returns `CALLBACK_ABORT` only when the Lua callback returned it |
| `Dispatch.Deliver` | sources/yara/extend/yara.cxx:265-332 | the trampoline's outcome over a scan's messages: every exception is `Runtime`, and there are no more calls than messages |
| `Dispatch.DeliverToValid` | sources/yara/extend/yara.cxx:265-332 | with the binding's valid function as user data, the i-th call carries the i-th message and its tabled payload; the scan runs to its end exactly when every call returns, and otherwise throws `Runtime` right after the first call that raised |
| `Dispatch.DeliverWithoutCallback` | sources/yara/extend/yara.cxx:274-277 | with a null or invalid callback no Lua call is made and every message gets an answer that lets the scan run on |
| `Dispatch.ScanWithLua` | sources/yara/extend/yara.cxx:255-335 | an invalid Lua function returns at once with no scan; otherwise one scan with the function as user data exactly when both handles are held (else `Scan`); its Lua calls are those of `Deliver`; it throws `Runtime` exactly when a call raised, and otherwise `Scan` exactly on `ERROR_INTERNAL_FATAL_ERROR` |
| `Dispatch.CallbackErrorEscapes` | sources/yara/extend/yara.cxx:323-328 | when the callback raises on the first message, the scan makes that one call and `scan_bytes` throws `Runtime`, whatever the scan would have returned |

## Left out

- The mutexes (`compiler_mutex_`, `rules_mutex_`, `execute_safely`): concurrency is not modelled, and operations are sequential.
- `rules_foreach`, `strings_foreach`, `metas_foreach`, `tags_foreach`, `rule_enable`, `rule_disable`: these iterate or toggle libyara's internal structures and have no logic of their own.
- `save_rules_file`, `save_rules_stream`, `set_rule_buff`: each forwards its arguments to one libyara call and returns that call's code.
- The message text of every exception. Only the kind is kept, plus the path of `LoadRules`. The `CompilerRules` message adds an int to a string literal, which is pointer arithmetic.
- The `Unload` and `Finalize` exception kinds: the core never throws them.
- The libyara calls themselves: rule compilation, the scan engine and the serialisation format. Which messages a scan delivers, in which order, is a parameter of the scan binding; how libyara reacts to a `CALLBACK_ABORT` or `CALLBACK_ERROR` answer is reflected only in that sequence.
- The behaviour of libyara when handed a null handle, as happens when `set_rule_file`, `compiler_rules` or `save_rules_*` run without a compiler or rule set. The model passes the library's outcome through unchanged.
- File descriptors and `DIR` streams: `open`/`close`/`opendir`/`readdir`/`closedir` become the tree. The `closedir` skipped when a nested call throws is not modelled.
- A root folder that is a symbolic link to a directory: the model treats only a `Directory` node as listable.
- The heap-allocated `shared_ptr` that `bind_stream` stores in `user_data` and never frees: pointer lifetimes are not modelled.
- The conversion of a Lua result to `int`, and of a Lua result to a string: the model receives the already converted value.
- The sol2 registration glue (`bind_import`, `bind_string`, `bind_namespace`, `bind_meta`, `bind_rule`, `bind_flags`, `_bind`, `luaopen_yaral`).
- Stream.ReadTrampoline: requires `size > 0`. The source divides by `size`.
- Store.Yara.LoadRulesStream: the `YR_STREAM` argument is not passed. The library's outcome stands for what it read through the stream, so a `Runtime` that the read trampoline throws during the load, and that escapes `load_rules_stream`, is not represented.
- Handle identity: a handle libyara hands out is assumed not to be one the store has destroyed, so handles are identified by allocation, not by address; an allocator reusing a freed address is not modelled.
- Folder.WalkFaithful: requires every node of the tree to be openable. Only `.yar` files and folders need it: an unopenable `.yar` file records `ERROR_INVALID_FILE` rather than the compiler's code, and an unlistable folder throws without a call. Other files and special entries are never opened, so the requirement is stronger than needed for them.
