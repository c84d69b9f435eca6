/**
 * The path arithmetic of the folder loader: joining a folder and an entry
 * name with "/", `std::filesystem::path::extension()` and
 * `std::filesystem::path::filename()` on POSIX paths.
 */
module Paths {
  import opened Wrappers

  /** The index of the last occurrence of `c` in `s`, if any. */
  function LastIndexOf(s: string, c: char): (r: Option<nat>)
    ensures r.Some? ==> r.value < |s| && s[r.value] == c
    ensures r.Some? ==> forall j :: r.value < j < |s| ==> s[j] != c
    ensures r.None? ==> forall j :: 0 <= j < |s| ==> s[j] != c
  {
    if |s| == 0 then None
    else if s[|s| - 1] == c then Some(|s| - 1)
    else LastIndexOf(s[..|s| - 1], c)
  }

  /** The entries `.` and `..` that every listing holds. */
  predicate IsSelfOrParent(name: string) {
    name == "." || name == ".."
  }

  /** `folder + "/" + name`, as the loader builds each entry's full path. */
  function Join(folder: string, name: string): string {
    folder + "/" + name
  }

  /**
   * `std::filesystem::path(name).extension()`: from the rightmost '.' to the
   * end; empty for "." and "..", for a name without '.', and when the only
   * '.' that could start it is the name's first character (".profile").
   */
  function Extension(name: string): (e: string)
    ensures e != [] ==> |e| < |name| && e == name[|name| - |e|..] && e[0] == '.'
  {
    if IsSelfOrParent(name) then ""
    else match LastIndexOf(name, '.')
      case None => ""
      case Some(i) => if i == 0 then "" else name[i..]
  }

  /** The loader's test for a rule source: `extension() == ".yar"`. */
  predicate HasYarExtension(name: string) {
    Extension(name) == ".yar"
  }

  /**
   * `std::filesystem::path(p).filename()` for a POSIX path: everything after
   * the last '/', which is empty when `p` ends with '/'.
   */
  function LastComponent(p: string): (c: string)
    ensures |c| <= |p| && c == p[|p| - |c|..]
    ensures forall j :: 0 <= j < |c| ==> c[j] != '/'
    ensures |c| == |p| || p[|p| - |c| - 1] == '/'
  {
    match LastIndexOf(p, '/')
    case None => p
    case Some(i) => p[i + 1..]
  }

  /**
   * Everything before the last '/' (the containing folder); empty when `p`
   * holds no '/'. Only used to state where a rule source lies: its contract
   * says it is a prefix, and `LastComponentOfJoin` pins it for joined paths.
   */
  function Parent(p: string): (d: string)
    ensures |d| <= |p| && d == p[..|d|]
  {
    match LastIndexOf(p, '/')
    case None => ""
    case Some(i) => p[..i]
  }

  /** A directory entry name as `readdir` reports it never contains '/'. */
  predicate IsEntryName(name: string) {
    forall j :: 0 <= j < |name| ==> name[j] != '/'
  }

  /**
   * Reference definition of the rule-source test: a name is a rule source
   * exactly when it ends in ".yar" and has at least one character before it.
   */
  lemma {:induction false} YarExtensionIsSuffix(name: string)
    ensures HasYarExtension(name) <==> |name| >= 5 && name[|name| - 4..] == ".yar"
  {
    var n := |name|;
    if HasYarExtension(name) {
      assert name != "." && name != "..";
      var i := LastIndexOf(name, '.').value;
      assert name[i..] == ".yar";
      assert n - i == 4;
    }
    if n >= 5 && name[n - 4..] == ".yar" {
      assert name[n - 4] == '.';
      assert name[n - 3] == 'y' && name[n - 2] == 'a' && name[n - 1] == 'r';
      assert name != "." && name != "..";
      var r := LastIndexOf(name, '.');
      assert r.Some?;
      var i := r.value;
      assert i == n - 4;
      assert Extension(name) == name[n - 4..];
    }
  }

  /** The last component of a joined path is the entry name. */
  lemma {:induction false} LastComponentOfJoin(folder: string, name: string)
    requires IsEntryName(name)
    ensures LastComponent(Join(folder, name)) == name
    ensures Parent(Join(folder, name)) == folder
  {
    var p := Join(folder, name);
    var r := LastIndexOf(p, '/');
    assert p[|folder|] == '/';
    assert forall j :: |folder| < j < |p| ==> p[j] == name[j - |folder| - 1];
    assert r.Some? && r.value == |folder|;
    assert p[|folder| + 1..] == name;
    assert p[..|folder|] == folder;
  }

  /** A folder path without '/' is its own last component: `set_rules_folder("rules")` uses namespace `rules`. */
  lemma SlashFreeIsOwnComponent(p: string)
    requires IsEntryName(p)
    ensures LastComponent(p) == p
  {
  }

  /** A folder given with a trailing '/' yields the empty namespace. */
  lemma TrailingSlashHasEmptyLastComponent(folder: string)
    requires folder != [] && folder[|folder| - 1] == '/'
    ensures LastComponent(folder) == ""
  {
  }
}
