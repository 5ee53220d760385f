/**
 Filesystem paths as `std::path::Path` sees them: the sequence of components
 that `Path::components` yields (a root, `.`, `..` or a normal name). Both
 path queries the change filter uses work on components, not on characters.
 */
module Paths {
  import opened Iterators

  datatype Component = RootDir | CurDir | ParentDir | Normal(name: string)

  type Path = seq<Component>

  /**
   `Path::file_name`: the final component when it is a normal name; `None` for
   an empty path, the root, or a path ending in `.` or `..`.
   */
  function FileName(p: Path): (r: Option<string>)
    ensures r.Some? <==> |p| > 0 && p[|p| - 1].Normal?
    ensures r.Some? ==> EndsWith(p, [Normal(r.value)])
  {
    if |p| > 0 && p[|p| - 1].Normal? then Some(p[|p| - 1].name) else None
  }

  /** `Path::ends_with`: `child`'s components are the trailing components of `p`. */
  function EndsWith(p: Path, child: Path): (r: bool)
    ensures r <==> |child| <= |p| && forall k :: 0 <= k < |child| ==> p[|p| - |child| + k] == child[k]
  {
    |child| <= |p| && p[|p| - |child|..] == child
  }

  /** `str::starts_with` for a string pattern. */
  function StartsWith(s: string, prefix: string): (r: bool)
    ensures r <==> |prefix| <= |s| && forall k :: 0 <= k < |prefix| ==> s[k] == prefix[k]
  {
    |prefix| <= |s| && s[..|prefix|] == prefix
  }

  /** The path `~`: a single normal component. */
  const Tilde: Path := [Normal("~")]

  /**
   A path "ends with `~`" only when its whole last component is `~`; a name
   such as `notes.txt~` merely ending in the character does not match.
   */
  lemma EndsWithTildeIsLastComponent(p: Path)
    ensures EndsWith(p, Tilde) <==> FileName(p) == Some("~")
  {
    if EndsWith(p, Tilde) {
      assert p[|p| - 1] == p[|p| - 1..][0];
    }
    if FileName(p) == Some("~") {
      assert p[|p| - 1..] == [p[|p| - 1]];
    }
  }

  /** A backup name like `foo~` (longer than `~` alone) is not matched by `ends_with("~")`. */
  lemma BackupNameDoesNotEndWithTilde(dirs: Path, name: string)
    requires |name| > 1 && name[|name| - 1] == '~'
    ensures !EndsWith(dirs + [Normal(name)], Tilde)
  {
    EndsWithTildeIsLastComponent(dirs + [Normal(name)]);
  }
}
