/**
 * `yara::Yara`, the rule store: a compiler handle and a compiled rule-set
 * handle, each possibly null, updated in place by its methods. Every libyara
 * call is a parameter giving the code it returns and, for calls that fill in
 * a handle out-parameter, the handle left there. The mutexes are not
 * modelled; operations are sequential.
 */
module Store {
  import opened Wrappers
  import opened LibYara
  import opened Errors
  import opened Paths
  import opened Folder

  /** An opaque `YR_COMPILER *`. */
  datatype CompilerHandle = CompilerHandle(id: nat)

  /** An opaque `YR_RULES *`. */
  datatype RulesHandle = RulesHandle(id: nat)

  /** A teardown call into libyara made on the store's behalf. */
  datatype Teardown = DestroyCompiler(c: CompilerHandle) | DestroyRules(r: RulesHandle) | Finalize

  /**
   * The outcome of a libyara call that takes a handle out-parameter: the
   * code it returns and the handle it leaves in the out-parameter.
   */
  datatype Produced<H> = Produced(code: int, slot: Option<H>)

  /** The one `yr_rules_scan_mem` call a scan makes, with the user data handed to its callback. */
  datatype ScanCall<D> = ScanCall(rules: RulesHandle, buffer: seq<Byte>, flags: int, userData: D)

  /**
   * `compiler_rules`' failure test `code != ERROR_SUCCESS || code ==
   * ERROR_INSUFFICIENT_MEMORY`: the second disjunct adds nothing.
   */
  function CompileFailed(code: int): (failed: bool)
    ensures failed <==> code != ERROR_SUCCESS
  {
    code != ERROR_SUCCESS || code == ERROR_INSUFFICIENT_MEMORY
  }

  class Yara {
    var compiler: Option<CompilerHandle>
    var rules: Option<RulesHandle>
    /** The destroy and finalize calls made so far, in order. */
    ghost var released: seq<Teardown>

    /** The store never holds a handle it has already destroyed. */
    ghost predicate Valid()
      reads this
    {
      && (compiler.Some? ==> DestroyCompiler(compiler.value) !in released)
      && (rules.Some? ==> DestroyRules(rules.value) !in released)
    }

    /** A handle libyara hands out is not one this store destroyed. */
    ghost predicate FreshCompiler(slot: Option<CompilerHandle>)
      reads this
    {
      slot.Some? ==> DestroyCompiler(slot.value) !in released
    }

    ghost predicate FreshRules(slot: Option<RulesHandle>)
      reads this
    {
      slot.Some? ==> DestroyRules(slot.value) !in released
    }

    /** Member initialisers: both handles null. */
    constructor Blank()
      ensures Valid()
      ensures compiler.None? && rules.None? && released == []
    {
      compiler, rules := None, None;
      released := [];
    }

    /**
     * `Yara()`: `yr_initialize` returns `initCode`; if that succeeds,
     * `load_compiler` runs `yr_compiler_create`, whose outcome is `created`.
     * Either failure throws `Initialize` and no store is returned.
     */
    static method Create(initCode: int, created: Produced<CompilerHandle>) returns (r: Result<Yara, Error>)
      ensures r.Failure? <==> initCode != ERROR_SUCCESS || created.code != ERROR_SUCCESS
      ensures r.Failure? ==> r.error == Initialize
      ensures r.Success? ==> fresh(r.value) && r.value.Valid() && r.value.released == []
      ensures r.Success? ==> r.value.compiler == created.slot && r.value.rules.None?
    {
      var y := new Yara.Blank();
      if initCode != ERROR_SUCCESS {
        return Failure(Initialize);
      }
      var code := y.LoadCompiler(created);
      if code != ERROR_SUCCESS {
        return Failure(Initialize);
      }
      return Success(y);
    }

    /** `load_compiler`: the compiler field is overwritten by `yr_compiler_create`. */
    method LoadCompiler(created: Produced<CompilerHandle>) returns (code: int)
      requires Valid() && FreshCompiler(created.slot)
      modifies this
      ensures Valid()
      ensures code == created.code
      ensures compiler == created.slot && rules == old(rules) && released == old(released)
    {
      compiler := created.slot;
      code := created.code;
    }

    /** `unload_compiler`: destroy a present compiler and null the field; a no-op when absent. */
    method UnloadCompiler()
      requires Valid()
      modifies this
      ensures Valid()
      ensures compiler.None? && rules == old(rules)
      ensures released == old(released) +
        (if old(compiler).Some? then [DestroyCompiler(old(compiler).value)] else [])
    {
      if compiler.Some? {
        released := released + [DestroyCompiler(compiler.value)];
        compiler := None;
      }
    }

    /**
     * `unload_rules`: destroy a present rule set and null the field whatever
     * `yr_rules_destroy` returned (`destroyCode`); a no-op when absent.
     */
    method UnloadRules(destroyCode: int)
      requires Valid()
      modifies this
      ensures Valid()
      ensures rules.None? && compiler == old(compiler)
      ensures released == old(released) +
        (if old(rules).Some? then [DestroyRules(old(rules).value)] else [])
    {
      if rules.Some? {
        // `unload_rules` ignores the code `yr_rules_destroy` returns (`destroyCode`)
        released := released + [DestroyRules(rules.value)];
        rules := None;
      }
    }

    /**
     * `load_rules_file` and `load_rules_stream`: `yr_rules_load` or
     * `yr_rules_load_stream` writes straight into the rule-set field. A rule
     * set held before is dropped without being destroyed.
     */
    method LoadRulesFile(file: string, load: string -> Produced<RulesHandle>) returns (code: int)
      requires Valid() && FreshRules(load(file).slot)
      modifies this
      ensures Valid()
      ensures code == load(file).code
      ensures rules == load(file).slot && compiler == old(compiler) && released == old(released)
      ensures old(rules).Some? && rules != old(rules) ==>
        DestroyRules(old(rules).value) !in released
    {
      var loaded := load(file);
      rules := loaded.slot;
      code := loaded.code;
    }

    method LoadRulesStream(loaded: Produced<RulesHandle>) returns (code: int)
      requires Valid() && FreshRules(loaded.slot)
      modifies this
      ensures Valid()
      ensures code == loaded.code
      ensures rules == loaded.slot && compiler == old(compiler) && released == old(released)
      ensures old(rules).Some? && rules != old(rules) ==>
        DestroyRules(old(rules).value) !in released
    {
      rules := loaded.slot;
      code := loaded.code;
    }

    /**
     * `compiler_rules`: `yr_compiler_get_rules` writes into the rule-set
     * field; any code but `ERROR_SUCCESS` throws `CompilerRules`. No rule set
     * held before is destroyed.
     */
    method CompilerRules(got: Produced<RulesHandle>) returns (r: Outcome<Error>)
      requires Valid() && FreshRules(got.slot)
      modifies this
      ensures Valid()
      ensures r.Fail? <==> got.code != ERROR_SUCCESS
      ensures r.Fail? ==> r.error == Errors.CompilerRules
      ensures rules == got.slot && compiler == old(compiler) && released == old(released)
    {
      rules := got.slot;
      if CompileFailed(got.code) {
        return Fail(Errors.CompilerRules);
      }
      return Pass;
    }

    /** `load_rules`: the public name of `compiler_rules`. */
    method LoadRules(got: Produced<RulesHandle>) returns (r: Outcome<Error>)
      requires Valid() && FreshRules(got.slot)
      modifies this
      ensures Valid()
      ensures r.Fail? <==> got.code != ERROR_SUCCESS
      ensures r.Fail? ==> r.error == Errors.CompilerRules
      ensures rules == got.slot && compiler == old(compiler) && released == old(released)
    {
      r := CompilerRules(got);
    }

    /**
     * `set_rule_file`: open `file.path`, which names `target`; when that
     * fails return `ERROR_INVALID_FILE` without touching the compiler,
     * otherwise return what `yr_compiler_add_fd` returns (`lib(file)`) and
     * close the descriptor. `added` tells whether the compiler was called.
     */
    method SetRuleFile(file: RuleFile, target: Node, lib: RuleFile -> int) returns (code: int, added: bool)
      ensures added <==> target.readable
      ensures !added ==> code == ERROR_INVALID_FILE
      ensures added ==> code == lib(file)
      ensures code == AddCode(file, target, lib)
    {
      if !target.readable {
        return ERROR_INVALID_FILE, false;
      }
      code := lib(file);
      added := true;
    }

    /**
     * `set_rules_folder`: the `readdir` loop over folder `path`, which names
     * `node`; it returns the `set_rule_file` calls made and whether it
     * returned or threw.
     */
    method SetRulesFolder(path: string, node: Node, lib: RuleFile -> int)
      returns (attempts: seq<Attempt>, r: Outcome<Error>)
      ensures Walked(attempts, r) == Walk(path, node, lib)
      decreases node
    {
      if !(node.Directory? && node.readable) {
        return [], Fail(Errors.LoadRules(path));
      }
      attempts := [];
      var i := 0;
      while i < |node.entries|
        invariant 0 <= i <= |node.entries|
        invariant WalkFrom(path, node, i, attempts, lib) == Walk(path, node, lib)
      {
        var w := LoadEntry(path, attempts, node.entries[i], lib);
        if w.outcome.Fail? {
          return w.attempts, w.outcome;
        }
        attempts := w.attempts;
        i := i + 1;
      }
      r := Pass;
    }

    /**
     * One iteration of the `readdir` loop in folder `path`, after the calls
     * `done`: skip `.` and `..`, add a `.yar` file, descend into a folder,
     * ignore anything else.
     */
    method LoadEntry(path: string, done: seq<Attempt>, e: Entry, lib: RuleFile -> int)
      returns (w: Walked)
      ensures w == Step(path, done, e, lib)
      decreases e
    {
      if e.name == "." || e.name == ".." {
        return Walked(done, Pass);
      }
      var full := Join(path, e.name);
      if HasYarExtension(e.name) {
        var file := RuleFile(full, e.name, LastComponent(path));
        var code, _ := SetRuleFile(file, e.node, lib);
        if code != ERROR_SUCCESS {
          return Walked(done + [Attempt(file, code)], Fail(Errors.LoadRules(full)));
        }
        return Walked(done + [Attempt(file, code)], Pass);
      } else if e.node.Directory? {
        var sub, subOutcome := SetRulesFolder(full, e.node, lib);
        return Walked(done + sub, subOutcome);
      }
      return Walked(done, Pass);
    }

    /**
     * `scan_bytes`: with both handles present make exactly one
     * `yr_rules_scan_mem` call, handing the callback `userData`; with either
     * absent throw `Scan` without scanning. `delivered` is what the callback
     * did during the scan: an exception it throws unwinds through
     * `yr_rules_scan_mem` and out of `scan_bytes`. Otherwise the scan returns
     * `scanResult`, and only `ERROR_INTERNAL_FATAL_ERROR` throws `Scan`.
     */
    method ScanBytes<D>(buffer: seq<Byte>, flags: int, userData: D, delivered: Outcome<Error>, scanResult: int)
      returns (call: Option<ScanCall<D>>, r: Outcome<Error>)
      ensures call.Some? <==> compiler.Some? && rules.Some?
      ensures call.Some? ==> call.value == ScanCall(rules.value, buffer, flags, userData)
      ensures call.None? ==> r == Fail(Scan)
      ensures call.Some? && delivered.Fail? ==> r == delivered
      ensures call.Some? && delivered.Pass? ==> (r.Fail? <==> scanResult == ERROR_INTERNAL_FATAL_ERROR)
      ensures call.Some? && delivered.Pass? && r.Fail? ==> r.error == Scan
    {
      if compiler.Some? && rules.Some? {
        call := Some(ScanCall(rules.value, buffer, flags, userData));
        if delivered.Fail? {
          return call, delivered;
        }
        if scanResult == ERROR_INTERNAL_FATAL_ERROR {
          return call, Fail(Scan);
        }
        return call, Pass;
      }
      return None, Fail(Scan);
    }

    /**
     * `~Yara()`: `yr_finalize` first (a failure is not thrown), then destroy
     * the compiler and then the rule set, each if present. Teardown never
     * throws.
     */
    method Dispose(finalizeCode: int)
      modifies this
      ensures compiler == old(compiler) && rules == old(rules)
      ensures released == old(released) + [Finalize]
        + (if compiler.Some? then [DestroyCompiler(compiler.value)] else [])
        + (if rules.Some? then [DestroyRules(rules.value)] else [])
    {
      // on a failed `yr_finalize` (`finalizeCode`) the destructor builds a
      // `Finalize` exception and drops it without throwing
      released := released + [Finalize];
      if compiler.Some? {
        released := released + [DestroyCompiler(compiler.value)];
      }
      if rules.Some? {
        released := released + [DestroyRules(rules.value)];
      }
    }
  }

  /** Scanning after `unload_compiler` fails, even with a rule set loaded. */
  method ScanAfterUnloadCompiler<D>(y: Yara, buffer: seq<Byte>, flags: int, userData: D,
                                    delivered: Outcome<Error>, scanResult: int)
    returns (call: Option<ScanCall<D>>, r: Outcome<Error>)
    requires y.Valid()
    modifies y
    ensures y.rules == old(y.rules) && y.compiler.None?
    ensures call.None? && r == Fail(Scan)
  {
    y.UnloadCompiler();
    call, r := y.ScanBytes(buffer, flags, userData, delivered, scanResult);
  }

  /** A second `unload_rules` changes nothing. */
  method UnloadRulesTwice(y: Yara, firstCode: int, secondCode: int)
    requires y.Valid()
    modifies y
    ensures y.rules.None? && y.compiler == old(y.compiler)
    ensures y.released == old(y.released) +
      (if old(y.rules).Some? then [DestroyRules(old(y.rules).value)] else [])
  {
    y.UnloadRules(firstCode);
    ghost var between := y.released;
    y.UnloadRules(secondCode);
    assert y.released == between;
  }
}
