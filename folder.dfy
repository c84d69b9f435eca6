/**
 * The recursive folder loader `Yara::set_rules_folder` as a specification
 * over an in-memory directory tree. `opendir`/`readdir` become a `Directory`
 * node and its entries in `readdir` order; `open` succeeds on a node exactly
 * when it is `readable`; the compiler's answer to adding a rule file is the
 * parameter `lib`.
 */
module Folder {
  import opened Wrappers
  import opened LibYara
  import opened Errors
  import opened Paths

  /** What a path names. `Special` is anything `readdir` does not report as DT_DIR. */
  datatype Node =
    | File(readable: bool)
    | Directory(readable: bool, entries: seq<Entry>)
    | Special(readable: bool)

  /** One `readdir` record: the entry's name and what it names. */
  datatype Entry = Entry(name: string, node: Node)

  /** The arguments of one `set_rule_file` call: full path, display name, namespace. */
  datatype RuleFile = RuleFile(path: string, name: string, ns: string)

  /** One `set_rule_file` call and the code it returned. */
  datatype Attempt = Attempt(file: RuleFile, code: int)

  /** The calls a walk made, in order, and whether it returned or threw. */
  datatype Walked = Walked(attempts: seq<Attempt>, outcome: Outcome<Error>)

  /** Every name in the tree is a name `readdir` can report. */
  predicate WellFormed(node: Node)
    decreases node
  {
    node.Directory? ==>
      forall i :: 0 <= i < |node.entries| ==>
        IsEntryName(node.entries[i].name) && WellFormed(node.entries[i].node)
  }

  /** `set_rule_file`'s result: `ERROR_INVALID_FILE` when `open` fails, else the compiler's. */
  function AddCode(file: RuleFile, node: Node, lib: RuleFile -> int): int {
    if node.readable then lib(file) else ERROR_INVALID_FILE
  }

  /** The folder loader run on the folder `path`, which names `node`. */
  function Walk(path: string, node: Node, lib: RuleFile -> int): (w: Walked)
    decreases node, if node.Directory? then |node.entries| + 1 else 0
  {
    if node.Directory? && node.readable then WalkFrom(path, node, 0, [], lib)
    else Walked([], Fail(LoadRules(path)))
  }

  /**
   * The loader's `readdir` loop over the listable folder `dir` from entry
   * `i` on, after the calls `done` all succeeded: it stops at the first
   * entry that throws.
   */
  function WalkFrom(path: string, dir: Node, i: nat, done: seq<Attempt>, lib: RuleFile -> int): (w: Walked)
    requires dir.Directory? && i <= |dir.entries|
    decreases dir, |dir.entries| - i
  {
    if i == |dir.entries| then Walked(done, Pass)
    else
      var w := Step(path, done, dir.entries[i], lib);
      if w.outcome.Fail? then w else WalkFrom(path, dir, i + 1, w.attempts, lib)
  }

  /** One loop iteration of the loader in folder `path`, after the calls `done` all succeeded. */
  function Step(path: string, done: seq<Attempt>, e: Entry, lib: RuleFile -> int): (w: Walked)
    decreases e, 0
  {
    if IsSelfOrParent(e.name) then Walked(done, Pass)
    else
      var full := Join(path, e.name);
      if HasYarExtension(e.name) then
        var file := RuleFile(full, e.name, LastComponent(path));
        var code := AddCode(file, e.node, lib);
        Walked(done + [Attempt(file, code)],
               if code == ERROR_SUCCESS then Pass else Fail(LoadRules(full)))
      else if e.node.Directory? then
        var sub := Walk(full, e.node, lib);
        Walked(done + sub.attempts, sub.outcome)
      else Walked(done, Pass)
  }

  /**
   * Reference definition: the rule sources a folder holds, in `readdir`
   * order, with the arguments they are to be added with. Folders that
   * cannot be listed contribute nothing.
   */
  function Sources(path: string, node: Node): seq<RuleFile>
    decreases node, if node.Directory? then |node.entries| + 1 else 0
  {
    if node.Directory? && node.readable then SourcesFrom(path, node, 0) else []
  }

  /** The rule sources among the entries of `dir` from entry `i` on. */
  function SourcesFrom(path: string, dir: Node, i: nat): seq<RuleFile>
    requires dir.Directory? && i <= |dir.entries|
    decreases dir, |dir.entries| - i
  {
    if i == |dir.entries| then [] else EntrySources(path, dir.entries[i]) + SourcesFrom(path, dir, i + 1)
  }

  /** The rule sources one entry of folder `path` contributes. */
  function EntrySources(path: string, e: Entry): seq<RuleFile>
    decreases e, 0
  {
    var full := Join(path, e.name);
    if IsSelfOrParent(e.name) then []
    else if HasYarExtension(e.name) then [RuleFile(full, e.name, LastComponent(path))]
    else if e.node.Directory? then Sources(full, e.node)
    else []
  }

  /** The files of a sequence of attempts. */
  function Files(attempts: seq<Attempt>): (fs: seq<RuleFile>)
    ensures |fs| == |attempts|
    ensures forall i :: 0 <= i < |fs| ==> fs[i] == attempts[i].file
  {
    if attempts == [] then [] else Files(attempts[..|attempts| - 1]) + [attempts[|attempts| - 1].file]
  }

  /**
   * A walk stops at its first failure: only the last attempt may have
   * failed, a failed attempt raises `LoadRules` naming its path, a walk that
   * returns had no failed attempt, and every exception is `LoadRules`.
   */
  predicate StopsAtFirstFailure(w: Walked) {
    && (forall i :: 0 <= i < |w.attempts| && w.attempts[i].code != ERROR_SUCCESS ==>
          i == |w.attempts| - 1 && w.outcome == Fail(LoadRules(w.attempts[i].file.path)))
    && (w.outcome.Fail? ==> w.outcome.error.LoadRules?)
  }

  /** The shape every rule source has: path, display name and namespace. */
  predicate WellPlaced(root: string, f: RuleFile) {
    && HasYarExtension(f.name)
    && f.path == Join(Parent(f.path), f.name)
    && f.ns == LastComponent(Parent(f.path))
    && root + "/" <= f.path
  }

  lemma {:induction false} FilesAppend(a: seq<Attempt>, b: seq<Attempt>)
    ensures Files(a + b) == Files(a) + Files(b)
  {
    assert |Files(a + b)| == |Files(a) + Files(b)|;
    forall i | 0 <= i < |a + b| ensures Files(a + b)[i] == (Files(a) + Files(b))[i] {
    }
  }

  /** All calls in `attempts` returned `ERROR_SUCCESS`. */
  predicate AllSucceeded(attempts: seq<Attempt>) {
    forall i :: 0 <= i < |attempts| ==> attempts[i].code == ERROR_SUCCESS
  }

  /**
   * The walk attempts exactly the folder's rule sources, in order, up to
   * and including the first failure, and stops there.
   */
  lemma {:induction false} WalkSound(path: string, node: Node, lib: RuleFile -> int)
    ensures var w := Walk(path, node, lib);
      && StopsAtFirstFailure(w)
      && Files(w.attempts) <= Sources(path, node)
      && (w.outcome.Pass? ==> Files(w.attempts) == Sources(path, node))
    decreases node, if node.Directory? then |node.entries| + 1 else 0
  {
    if node.Directory? && node.readable {
      WalkFromSound(path, node, 0, [], lib);
      var w := Walk(path, node, lib);
      assert w.attempts[0..] == w.attempts;
    }
  }

  /**
   * The loop from entry `i` on, after the successful calls `done`, makes
   * calls that are a prefix of the remaining rule sources (all of them
   * when it returns) and stops at its first failure.
   */
  predicate SoundFrom(path: string, dir: Node, i: nat, done: seq<Attempt>, lib: RuleFile -> int)
    requires dir.Directory? && i <= |dir.entries|
  {
    var w := WalkFrom(path, dir, i, done, lib);
    && done <= w.attempts
    && StopsAtFirstFailure(w)
    && Files(w.attempts[|done|..]) <= SourcesFrom(path, dir, i)
    && (w.outcome.Pass? ==> Files(w.attempts[|done|..]) == SourcesFrom(path, dir, i))
  }

  lemma {:induction false} WalkFromSound(path: string, dir: Node, i: nat, done: seq<Attempt>, lib: RuleFile -> int)
    requires dir.Directory? && i <= |dir.entries|
    requires AllSucceeded(done)
    ensures SoundFrom(path, dir, i, done, lib)
    decreases dir, |dir.entries| - i
  {
    if i == |dir.entries| {
      var w := WalkFrom(path, dir, i, done, lib);
      assert w.attempts[|done|..] == [];
    } else {
      var s := Step(path, done, dir.entries[i], lib);
      StepSound(path, done, dir.entries[i], lib);
      if s.outcome.Fail? {
        StopSound(path, dir, i, done, lib);
      } else {
        assert AllSucceeded(s.attempts);
        WalkFromSound(path, dir, i + 1, s.attempts, lib);
        GoSound(path, dir, i, done, lib);
      }
    }
  }

  /** The loop stops at an entry whose step throws. */
  lemma StopSound(path: string, dir: Node, i: nat, done: seq<Attempt>, lib: RuleFile -> int)
    requires dir.Directory? && i < |dir.entries|
    requires StepIsSound(path, done, dir.entries[i], lib)
    requires Step(path, done, dir.entries[i], lib).outcome.Fail?
    ensures SoundFrom(path, dir, i, done, lib)
  {
    var e := dir.entries[i];
    var s := Step(path, done, e, lib);
    assert WalkFrom(path, dir, i, done, lib) == s;
    assert SourcesFrom(path, dir, i) == EntrySources(path, e) + SourcesFrom(path, dir, i + 1);
  }

  /** The loop goes on past an entry whose step returns. */
  lemma GoSound(path: string, dir: Node, i: nat, done: seq<Attempt>, lib: RuleFile -> int)
    requires dir.Directory? && i < |dir.entries|
    requires StepIsSound(path, done, dir.entries[i], lib)
    requires Step(path, done, dir.entries[i], lib).outcome.Pass?
    requires SoundFrom(path, dir, i + 1, Step(path, done, dir.entries[i], lib).attempts, lib)
    ensures SoundFrom(path, dir, i, done, lib)
  {
    var e := dir.entries[i];
    var s := Step(path, done, e, lib);
    var w := WalkFrom(path, dir, i + 1, s.attempts, lib);
    assert WalkFrom(path, dir, i, done, lib) == w;
    assert SourcesFrom(path, dir, i) == EntrySources(path, e) + SourcesFrom(path, dir, i + 1);
    ChainSound(done, s.attempts, w, EntrySources(path, e), SourcesFrom(path, dir, i + 1));
  }

  /**
   * Calls that matched one entry's sources exactly, followed by calls that
   * are sound for the remaining entries, are sound for all of them.
   */
  lemma ChainSound(done: seq<Attempt>, mid: seq<Attempt>, w: Walked, first: seq<RuleFile>, more: seq<RuleFile>)
    requires done <= mid <= w.attempts
    requires Files(mid[|done|..]) == first
    requires Files(w.attempts[|mid|..]) <= more
    requires w.outcome.Pass? ==> Files(w.attempts[|mid|..]) == more
    ensures Files(w.attempts[|done|..]) <= first + more
    ensures w.outcome.Pass? ==> Files(w.attempts[|done|..]) == first + more
  {
    var rest := w.attempts[|mid|..];
    assert w.attempts[|done|..] == mid[|done|..] + rest;
    FilesAppend(mid[|done|..], rest);
    PrefixConcat(first, Files(rest), more);
  }

  /** One step keeps the earlier calls, stops at a failure, and calls exactly the entry's sources when it returns. */
  predicate StepIsSound(path: string, done: seq<Attempt>, e: Entry, lib: RuleFile -> int) {
    var w := Step(path, done, e, lib);
    && done <= w.attempts
    && StopsAtFirstFailure(w)
    && Files(w.attempts[|done|..]) <= EntrySources(path, e)
    && (w.outcome.Pass? ==> Files(w.attempts[|done|..]) == EntrySources(path, e))
  }

  lemma {:induction false} StepSound(path: string, done: seq<Attempt>, e: Entry, lib: RuleFile -> int)
    requires AllSucceeded(done)
    ensures StepIsSound(path, done, e, lib)
    decreases e, 1
  {
    if IsSelfOrParent(e.name) {
      assert Step(path, done, e, lib) == Walked(done, Pass);
      assert done[|done|..] == [];
    } else if HasYarExtension(e.name) {
      AddFileSound(path, done, e, lib);
    } else if e.node.Directory? {
      DescendSound(path, done, e, lib);
    } else {
      assert Step(path, done, e, lib) == Walked(done, Pass);
      assert done[|done|..] == [];
    }
  }

  /** A `.yar` entry makes one call, which throws exactly when it fails. */
  lemma AddFileSound(path: string, done: seq<Attempt>, e: Entry, lib: RuleFile -> int)
    requires AllSucceeded(done)
    requires !IsSelfOrParent(e.name) && HasYarExtension(e.name)
    ensures StepIsSound(path, done, e, lib)
  {
    var sub := FileStep(path, e, lib);
    AppendSound(done, sub, Files(sub.attempts));
  }

  /** The one call a `.yar` entry makes, alone. */
  lemma FileStep(path: string, e: Entry, lib: RuleFile -> int) returns (sub: Walked)
    requires !IsSelfOrParent(e.name) && HasYarExtension(e.name)
    ensures forall done :: Step(path, done, e, lib) == Walked(done + sub.attempts, sub.outcome)
    ensures Files(sub.attempts) == EntrySources(path, e)
    ensures StopsAtFirstFailure(sub)
    ensures e.node.readable ==> CodesFromCompiler(sub.attempts, lib)
    ensures ThrowsOnRejection(sub)
  {
    var file := RuleFile(Join(path, e.name), e.name, LastComponent(path));
    var code := AddCode(file, e.node, lib);
    sub := Walked([Attempt(file, code)], if code == ERROR_SUCCESS then Pass else Fail(LoadRules(file.path)));
    assert Files(sub.attempts) == [file];
  }

  /** A folder entry without the `.yar` extension is walked recursively. */
  lemma {:induction false} DescendSound(path: string, done: seq<Attempt>, e: Entry, lib: RuleFile -> int)
    requires AllSucceeded(done)
    requires !IsSelfOrParent(e.name) && !HasYarExtension(e.name) && e.node.Directory?
    ensures StepIsSound(path, done, e, lib)
    decreases e, 0
  {
    var full := Join(path, e.name);
    WalkSound(full, e.node, lib);
    var sub := Walk(full, e.node, lib);
    assert Step(path, done, e, lib) == Walked(done + sub.attempts, sub.outcome);
    assert EntrySources(path, e) == Sources(full, e.node);
    AppendSound(done, sub, Sources(full, e.node));
  }

  /** Successful calls followed by a sound walk over some sources form a sound step over them. */
  lemma AppendSound(done: seq<Attempt>, sub: Walked, sources: seq<RuleFile>)
    requires AllSucceeded(done)
    requires StopsAtFirstFailure(sub) && Files(sub.attempts) <= sources
    requires sub.outcome.Pass? ==> Files(sub.attempts) == sources
    ensures var w := Walked(done + sub.attempts, sub.outcome);
      && done <= w.attempts
      && StopsAtFirstFailure(w)
      && Files(w.attempts[|done|..]) <= sources
      && (w.outcome.Pass? ==> Files(w.attempts[|done|..]) == sources)
  {
    var w := Walked(done + sub.attempts, sub.outcome);
    assert w.attempts[|done|..] == sub.attempts;
    forall i | 0 <= i < |w.attempts| && w.attempts[i].code != ERROR_SUCCESS
      ensures i == |w.attempts| - 1 && w.outcome == Fail(LoadRules(w.attempts[i].file.path))
    {
      assert i >= |done|;
      assert w.attempts[i] == sub.attempts[i - |done|];
    }
  }

  lemma PrefixConcat<T>(a: seq<T>, b: seq<T>, c: seq<T>)
    requires b <= c
    ensures a + b <= a + c
  {
    assert a + c == (a + b) + c[|b|..];
  }

  /** Every node of the tree can be opened. */
  predicate AllReadable(node: Node)
    decreases node
  {
    && node.readable
    && (node.Directory? ==>
          forall i :: 0 <= i < |node.entries| ==> AllReadable(node.entries[i].node))
  }

  /** The compiler accepts every one of `sources`. */
  predicate AllAccepted(sources: seq<RuleFile>, lib: RuleFile -> int) {
    forall i :: 0 <= i < |sources| ==> lib(sources[i]) == ERROR_SUCCESS
  }

  /**
   * The converse of `WalkSound`: on a folder whose every node can be opened,
   * and whose every rule source the compiler accepts, the walk returns,
   * having added every rule source in order.
   */
  lemma {:induction false} WalkComplete(path: string, node: Node, lib: RuleFile -> int)
    requires node.Directory? && AllReadable(node) && AllAccepted(Sources(path, node), lib)
    ensures Walk(path, node, lib).outcome == Pass
    ensures Files(Walk(path, node, lib).attempts) == Sources(path, node)
    decreases node, |node.entries| + 1
  {
    WalkFromComplete(path, node, 0, [], lib);
    WalkSound(path, node, lib);
  }

  lemma {:induction false} WalkFromComplete(path: string, dir: Node, i: nat, done: seq<Attempt>, lib: RuleFile -> int)
    requires dir.Directory? && i <= |dir.entries| && AllReadable(dir)
    requires AllAccepted(SourcesFrom(path, dir, i), lib)
    ensures WalkFrom(path, dir, i, done, lib).outcome == Pass
    decreases dir, |dir.entries| - i
  {
    if i < |dir.entries| {
      var e := dir.entries[i];
      var here := EntrySources(path, e);
      var later := SourcesFrom(path, dir, i + 1);
      assert SourcesFrom(path, dir, i) == here + later;
      assert AllAccepted(here, lib) by {
        forall j | 0 <= j < |here| ensures lib(here[j]) == ERROR_SUCCESS {
          assert (here + later)[j] == here[j];
        }
      }
      assert AllAccepted(later, lib) by {
        forall j | 0 <= j < |later| ensures lib(later[j]) == ERROR_SUCCESS {
          assert (here + later)[|here| + j] == later[j];
        }
      }
      StepComplete(path, done, e, lib);
      var s := Step(path, done, e, lib);
      WalkFromComplete(path, dir, i + 1, s.attempts, lib);
      assert WalkFrom(path, dir, i, done, lib) == WalkFrom(path, dir, i + 1, s.attempts, lib);
    }
  }

  /** One loop iteration returns when its node can be opened and the compiler accepts its sources. */
  lemma {:induction false} StepComplete(path: string, done: seq<Attempt>, e: Entry, lib: RuleFile -> int)
    requires AllReadable(e.node) && AllAccepted(EntrySources(path, e), lib)
    ensures Step(path, done, e, lib).outcome == Pass
    decreases e, 1
  {
    if IsSelfOrParent(e.name) {
    } else if HasYarExtension(e.name) {
      var file := RuleFile(Join(path, e.name), e.name, LastComponent(path));
      assert EntrySources(path, e) == [file];
      assert EntrySources(path, e)[0] == file;
      assert AddCode(file, e.node, lib) == ERROR_SUCCESS;
    } else if e.node.Directory? {
      var full := Join(path, e.name);
      assert EntrySources(path, e) == Sources(full, e.node);
      WalkComplete(full, e.node, lib);
    }
  }

  /** Every recorded code is the compiler's answer for that file. */
  predicate CodesFromCompiler(attempts: seq<Attempt>, lib: RuleFile -> int) {
    forall i :: 0 <= i < |attempts| ==> attempts[i].code == lib(attempts[i].file)
  }

  /** A walk that throws does so right after a call the compiler rejected. */
  predicate ThrowsOnRejection(w: Walked) {
    w.outcome.Fail? ==> 0 < |w.attempts| && w.attempts[|w.attempts| - 1].code != ERROR_SUCCESS
  }

  /**
   * On a folder whose every node can be opened, each recorded code is the
   * compiler's answer, and the walk throws only right after a call the
   * compiler rejected.
   */
  lemma {:induction false} WalkFaithful(path: string, node: Node, lib: RuleFile -> int)
    requires node.Directory? && AllReadable(node)
    ensures CodesFromCompiler(Walk(path, node, lib).attempts, lib)
    ensures ThrowsOnRejection(Walk(path, node, lib))
    decreases node, |node.entries| + 1
  {
    WalkFromFaithful(path, node, 0, [], lib);
  }

  lemma {:induction false} WalkFromFaithful(path: string, dir: Node, i: nat, done: seq<Attempt>, lib: RuleFile -> int)
    requires dir.Directory? && i <= |dir.entries| && AllReadable(dir)
    requires CodesFromCompiler(done, lib)
    ensures CodesFromCompiler(WalkFrom(path, dir, i, done, lib).attempts, lib)
    ensures ThrowsOnRejection(WalkFrom(path, dir, i, done, lib))
    decreases dir, |dir.entries| - i
  {
    if i < |dir.entries| {
      var e := dir.entries[i];
      StepFaithful(path, done, e, lib);
      var s := Step(path, done, e, lib);
      if s.outcome.Pass? {
        WalkFromFaithful(path, dir, i + 1, s.attempts, lib);
        assert WalkFrom(path, dir, i, done, lib) == WalkFrom(path, dir, i + 1, s.attempts, lib);
      } else {
        assert WalkFrom(path, dir, i, done, lib) == s;
      }
    }
  }

  lemma {:induction false} StepFaithful(path: string, done: seq<Attempt>, e: Entry, lib: RuleFile -> int)
    requires AllReadable(e.node) && CodesFromCompiler(done, lib)
    ensures CodesFromCompiler(Step(path, done, e, lib).attempts, lib)
    ensures ThrowsOnRejection(Step(path, done, e, lib))
    decreases e, 1
  {
    if IsSelfOrParent(e.name) {
      assert Step(path, done, e, lib) == Walked(done, Pass);
    } else if HasYarExtension(e.name) {
      var sub := FileStep(path, e, lib);
      AppendFaithful(done, sub, lib);
    } else if e.node.Directory? {
      DescendFaithful(path, done, e, lib);
    } else {
      assert Step(path, done, e, lib) == Walked(done, Pass);
    }
  }

  /** A folder entry without the `.yar` extension records the compiler's codes of its own walk. */
  lemma {:induction false} DescendFaithful(path: string, done: seq<Attempt>, e: Entry, lib: RuleFile -> int)
    requires AllReadable(e.node) && CodesFromCompiler(done, lib)
    requires !IsSelfOrParent(e.name) && !HasYarExtension(e.name) && e.node.Directory?
    ensures CodesFromCompiler(Step(path, done, e, lib).attempts, lib)
    ensures ThrowsOnRejection(Step(path, done, e, lib))
    decreases e, 0
  {
    var full := Join(path, e.name);
    WalkFaithful(full, e.node, lib);
    var sub := Walk(full, e.node, lib);
    assert Step(path, done, e, lib) == Walked(done + sub.attempts, sub.outcome);
    AppendFaithful(done, sub, lib);
  }

  /** Calls with the compiler's codes, followed by a walk that keeps both properties, keep them. */
  lemma AppendFaithful(done: seq<Attempt>, sub: Walked, lib: RuleFile -> int)
    requires CodesFromCompiler(done, lib) && CodesFromCompiler(sub.attempts, lib)
    requires ThrowsOnRejection(sub)
    ensures CodesFromCompiler(done + sub.attempts, lib)
    ensures ThrowsOnRejection(Walked(done + sub.attempts, sub.outcome))
  {
    var w := done + sub.attempts;
    forall j | 0 <= j < |w| ensures w[j].code == lib(w[j].file) {
      if j >= |done| {
        assert w[j] == sub.attempts[j - |done|];
      }
    }
    if sub.outcome.Fail? {
      assert w[|w| - 1] == sub.attempts[|sub.attempts| - 1];
    }
  }

  /**
   * On a folder whose every node can be opened, the walk adds the rule
   * sources in order up to and including the first one the compiler
   * rejects, and then throws `LoadRules` naming that source's path.
   */
  lemma WalkStopsAtFirstRejection(path: string, node: Node, lib: RuleFile -> int, k: nat)
    requires node.Directory? && AllReadable(node)
    requires k < |Sources(path, node)| && lib(Sources(path, node)[k]) != ERROR_SUCCESS
    requires forall j :: 0 <= j < k ==> lib(Sources(path, node)[j]) == ERROR_SUCCESS
    ensures Files(Walk(path, node, lib).attempts) == Sources(path, node)[..k + 1]
    ensures Walk(path, node, lib).outcome == Fail(LoadRules(Sources(path, node)[k].path))
  {
    var w := Walk(path, node, lib);
    var src := Sources(path, node);
    WalkSound(path, node, lib);
    WalkFaithful(path, node, lib);
    var fs := Files(w.attempts);
    assert fs <= src;
    if w.outcome.Pass? {
      assert false;
    }
    var m := |w.attempts| - 1;
    assert w.attempts[m].file == src[m];
    forall j | 0 <= j < m ensures lib(src[j]) == ERROR_SUCCESS {
      assert w.attempts[j].file == src[j];
    }
    assert m == k;
    assert fs == src[..k + 1];
  }

  /** Every rule source of a well-formed tree is well placed. */
  lemma {:induction false} SourcesWellPlaced(path: string, node: Node)
    requires WellFormed(node)
    ensures forall f :: f in Sources(path, node) ==> WellPlaced(path, f)
    decreases node, if node.Directory? then |node.entries| + 1 else 0
  {
    if node.Directory? && node.readable {
      SourcesFromWellPlaced(path, node, 0);
    }
  }

  lemma {:induction false} SourcesFromWellPlaced(path: string, dir: Node, i: nat)
    requires dir.Directory? && i <= |dir.entries| && WellFormed(dir)
    ensures forall f :: f in SourcesFrom(path, dir, i) ==> WellPlaced(path, f)
    decreases dir, |dir.entries| - i
  {
    if i < |dir.entries| {
      SourcesFromWellPlaced(path, dir, i + 1);
      var e := dir.entries[i];
      assert IsEntryName(e.name) && WellFormed(e.node);
      EntrySourcesWellPlaced(path, e);
    }
  }

  lemma {:induction false} EntrySourcesWellPlaced(path: string, e: Entry)
    requires IsEntryName(e.name) && WellFormed(e.node)
    ensures forall f :: f in EntrySources(path, e) ==> WellPlaced(path, f)
    decreases e, 0
  {
    var full := Join(path, e.name);
    if IsSelfOrParent(e.name) {
    } else if HasYarExtension(e.name) {
      assert EntrySources(path, e) == [RuleFile(full, e.name, LastComponent(path))];
      EntryWellPlaced(path, e.name);
    } else if e.node.Directory? {
      assert EntrySources(path, e) == Sources(full, e.node);
      SourcesWellPlaced(full, e.node);
      forall f | f in Sources(full, e.node) ensures WellPlaced(path, f) {
        NestedWellPlaced(path, e.name, f);
      }
    } else {
      assert EntrySources(path, e) == [];
    }
  }

  lemma EntryWellPlaced(path: string, name: string)
    requires IsEntryName(name) && HasYarExtension(name)
    ensures WellPlaced(path, RuleFile(Join(path, name), name, LastComponent(path)))
  {
    LastComponentOfJoin(path, name);
    assert Join(path, name) == (path + "/") + name;
  }

  lemma NestedWellPlaced(path: string, name: string, f: RuleFile)
    requires WellPlaced(Join(path, name), f)
    ensures WellPlaced(path, f)
  {
    var full := Join(path, name);
    assert full + "/" == (path + "/") + (name + "/");
    assert path + "/" <= full + "/";
  }
}
