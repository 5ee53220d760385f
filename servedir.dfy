/**
 The change filter of the development server: the debouncer callback that
 looks for the first event in a batch that should trigger a reload, and the
 path test `has_trigger_file` it relies on. Whether a path names an existing
 regular file is a question for the operating system; it is the parameter
 `isFile` throughout.
 */
module Servedir {
  import opened Iterators
  import opened Paths
  import opened NotifyEvents

  /**
   Reference definition of a trigger path, stated directly on its last
   component: an existing regular file whose final component is a normal name
   other than `~` that does not begin with `.`. Directory components are not
   examined.
   */
  predicate Qualifies(isFile: Path -> bool, p: Path)
  {
    && isFile(p)
    && |p| > 0
    && p[|p| - 1].Normal?
    && p[|p| - 1].name != "~"
    && !(|p[|p| - 1].name| > 0 && p[|p| - 1].name[0] == '.')
  }

  lemma QualifiesStages(isFile: Path -> bool, p: Path)
    ensures Qualifies(isFile, p) <==>
      isFile(p) && !EndsWith(p, Tilde) && FileName(p).Some? && !StartsWith(FileName(p).value, ".")
  {
    EndsWithTildeIsLastComponent(p);
    if FileName(p).Some? {
      var n := FileName(p).value;
      assert StartsWith(n, ".") <==> |n| > 0 && n[0] == '.' by {
        if |n| > 0 { assert n[..1] == [n[0]]; }
      }
    }
  }

  /**
   `has_trigger_file`: the paths are run through the filters in the source's
   order (is a file, does not end with the component `~`, has a file name,
   the name does not start with `.`), and the result is whether anything
   survives to `find`.
   */
  function HasTriggerFile(isFile: Path -> bool, paths: seq<Path>): (r: bool)
    ensures r <==> exists i :: 0 <= i < |paths| && Qualifies(isFile, paths[i])
  {
    var files := Filter(paths, isFile);
    var kept := Filter(files, (p: Path) => !EndsWith(p, Tilde));
    var names := FilterMap(kept, FileName);
    var visible := Filter(names, (n: string) => !StartsWith(n, "."));
    var found := Find(visible, (n: string) => true);
    HasTriggerFileStages(isFile, paths, files, kept, names, visible);
    found.Some?
  }

  /** Something survives the pipeline of `has_trigger_file` exactly when some input path qualifies. */
  lemma HasTriggerFileStages(
    isFile: Path -> bool, paths: seq<Path>,
    files: seq<Path>, kept: seq<Path>, names: seq<string>, visible: seq<string>)
    requires files == Filter(paths, isFile)
    requires kept == Filter(files, (p: Path) => !EndsWith(p, Tilde))
    requires names == FilterMap(kept, FileName)
    requires visible == Filter(names, (n: string) => !StartsWith(n, "."))
    ensures |visible| > 0 <==> exists i :: 0 <= i < |paths| && Qualifies(isFile, paths[i])
  {
    if |visible| > 0 {
      SurvivorQualifies(isFile, paths, files, kept, names, visible);
    }
    if i :| 0 <= i < |paths| && Qualifies(isFile, paths[i]) {
      QualifyingPathSurvives(isFile, paths, files, kept, names, visible, i);
    }
  }

  lemma SurvivorQualifies(
    isFile: Path -> bool, paths: seq<Path>,
    files: seq<Path>, kept: seq<Path>, names: seq<string>, visible: seq<string>)
    requires files == Filter(paths, isFile)
    requires kept == Filter(files, (p: Path) => !EndsWith(p, Tilde))
    requires names == FilterMap(kept, FileName)
    requires visible == Filter(names, (n: string) => !StartsWith(n, "."))
    requires |visible| > 0
    ensures exists i :: 0 <= i < |paths| && Qualifies(isFile, paths[i])
  {
    var n := visible[0];
    FilterMember(names, (n: string) => !StartsWith(n, "."), n);
    var p := FilterMapMember(kept, FileName, n);
    FilterMember(files, (p: Path) => !EndsWith(p, Tilde), p);
    FilterMember(paths, isFile, p);
    var i :| 0 <= i < |paths| && paths[i] == p;
    QualifiesStages(isFile, p);
  }

  lemma QualifyingPathSurvives(
    isFile: Path -> bool, paths: seq<Path>,
    files: seq<Path>, kept: seq<Path>, names: seq<string>, visible: seq<string>, i: int)
    requires files == Filter(paths, isFile)
    requires kept == Filter(files, (p: Path) => !EndsWith(p, Tilde))
    requires names == FilterMap(kept, FileName)
    requires visible == Filter(names, (n: string) => !StartsWith(n, "."))
    requires 0 <= i < |paths| && Qualifies(isFile, paths[i])
    ensures |visible| > 0
  {
    var p := paths[i];
    QualifiesStages(isFile, p);
    assert p in files;
    var f :| 0 <= f < |files| && files[f] == p;
    assert p in kept;
    var j :| 0 <= j < |kept| && kept[j] == p;
    assert FileName(p).value in names;
    var k :| 0 <= k < |names| && names[k] == FileName(p).value;
    assert FileName(p).value in visible;
  }

  /** Kinds the callback inspects at all: every create, and modifications of file data. */
  predicate IsTriggerKind(k: EventKind)
  {
    k.Create? || (k.Modify? && k.modifyKind.Data?)
  }

  /**
   The closure passed to `find`: a create event (any sub-kind) or a data
   modification (any change type) counts when its paths hold a trigger file;
   every other event does not count, whatever its paths.
   */
  function IsRelevant(isFile: Path -> bool, e: Event): (r: bool)
    ensures r <==> IsTriggerKind(e.kind) && exists i :: 0 <= i < |e.paths| && Qualifies(isFile, e.paths[i])
  {
    match e.kind
    case Create(_) => HasTriggerFile(isFile, e.paths)
    case Modify(payload) =>
      (match payload
       case Data(changeType) =>
         (match changeType
          case _ => HasTriggerFile(isFile, e.paths))
       case _ => false)
    case _ => false
  }

  /** The `find` over a debounced batch: the first relevant event, in batch order. */
  function FindRelevant(isFile: Path -> bool, events: seq<Event>): (r: Option<Event>)
    ensures r.None? <==> forall i :: 0 <= i < |events| ==> !IsRelevant(isFile, events[i])
    ensures r.Some? ==>
      exists i :: 0 <= i < |events| && events[i] == r.value && IsRelevant(isFile, events[i]) &&
        forall j :: 0 <= j < i ==> !IsRelevant(isFile, events[j])
  {
    Find(events, (e: Event) => IsRelevant(isFile, e))
  }

  /**
   The debouncer callback. An error result is ignored and nothing is searched
   (`None`); a batch is searched for its first relevant event, and the answer,
   `Some(found)`, is then dropped: the callback requests no reload.
   */
  function OnDebounced(isFile: Path -> bool, result: DebounceResult): (searched: Option<Option<Event>>)
    ensures searched.Some? <==> result.Debounced?
    ensures result.Debounced? ==> searched == Some(FindRelevant(isFile, result.events))
    ensures result.Debounced? ==>
      (searched.value.Some? <==>
        exists i :: 0 <= i < |result.events| && IsRelevant(isFile, result.events[i]))
    ensures result.Debounced? && searched.value.Some? ==>
      searched.value.value in result.events &&
      IsRelevant(isFile, searched.value.value) &&
      IsTriggerKind(searched.value.value.kind)
  {
    match result
    case Debounced(events) => Some(FindRelevant(isFile, events))
    case Failed(_) => None
  }

  // Properties of the event classifier.

  /** A create event counts exactly when its paths hold a trigger file, whatever the create sub-kind. */
  lemma CreateIsRelevantIffTrigger(isFile: Path -> bool, ck: CreateKind, paths: seq<Path>)
    ensures IsRelevant(isFile, Event(Create(ck), paths)) == HasTriggerFile(isFile, paths)
  {
  }

  /** A data modification counts exactly when its paths hold a trigger file, for every change type. */
  lemma DataModifyIsRelevantIffTrigger(isFile: Path -> bool, dc: DataChange, paths: seq<Path>)
    ensures IsRelevant(isFile, Event(Modify(Data(dc)), paths)) == HasTriggerFile(isFile, paths)
  {
  }

  /**
   Metadata changes, renames, unspecified or other modifications, removals,
   accesses and the `Any`/`Other` kinds never count, whatever their paths.
   */
  lemma OtherKindsNeverRelevant(isFile: Path -> bool, k: EventKind, paths: seq<Path>)
    requires !k.Create? && !(k.Modify? && k.modifyKind.Data?)
    ensures !IsRelevant(isFile, Event(k, paths))
  {
  }

  // Properties of `has_trigger_file`.

  /** An event with no paths never holds a trigger file. */
  lemma NoPathsNoTrigger(isFile: Path -> bool)
    ensures !HasTriggerFile(isFile, [])
  {
  }

  /**
   Only the file name is checked for a leading `.`: a visible file inside a
   dot-directory such as `.git` is still a trigger file.
   */
  lemma FileInDotDirectoryTriggers(isFile: Path -> bool, dirs: Path, dir: string, name: string)
    requires |dir| > 0 && dir[0] == '.'
    requires name != "~" && !(|name| > 0 && name[0] == '.')
    requires isFile(dirs + [Normal(dir), Normal(name)])
    ensures HasTriggerFile(isFile, [dirs + [Normal(dir), Normal(name)]])
  {
    var p := dirs + [Normal(dir), Normal(name)];
    assert Qualifies(isFile, [p][0]);
  }

  /** An editor backup such as `notes.txt~` is a trigger file: only a last component of exactly `~` is rejected. */
  lemma BackupFileTriggers(isFile: Path -> bool, dirs: Path, name: string)
    requires |name| > 1 && name[|name| - 1] == '~' && name[0] != '.'
    requires isFile(dirs + [Normal(name)])
    ensures HasTriggerFile(isFile, [dirs + [Normal(name)]])
  {
    var p := dirs + [Normal(name)];
    assert Qualifies(isFile, [p][0]);
  }

  /** A path whose file name starts with `.`, or whose last component is `~`, or that has no file name, never triggers. */
  lemma RejectedNamesNeverTrigger(isFile: Path -> bool, p: Path)
    requires FileName(p).None? || FileName(p) == Some("~") || StartsWith(FileName(p).value, ".")
    ensures !HasTriggerFile(isFile, [p])
  {
    if FileName(p).Some? && StartsWith(FileName(p).value, ".") {
      assert FileName(p).value[0] == FileName(p).value[..1][0];
    }
  }

  /** Adding paths to a list splits the answer: a trigger among either part is a trigger of the whole. */
  lemma {:induction false} TriggerOfAppend(isFile: Path -> bool, ps: seq<Path>, qs: seq<Path>)
    ensures HasTriggerFile(isFile, ps + qs) == (HasTriggerFile(isFile, ps) || HasTriggerFile(isFile, qs))
  {
    var all := ps + qs;
    if HasTriggerFile(isFile, ps) {
      var i :| 0 <= i < |ps| && Qualifies(isFile, ps[i]);
      assert all[i] == ps[i];
    }
    if HasTriggerFile(isFile, qs) {
      var i :| 0 <= i < |qs| && Qualifies(isFile, qs[i]);
      assert all[|ps| + i] == qs[i];
    }
    if HasTriggerFile(isFile, all) {
      var i :| 0 <= i < |all| && Qualifies(isFile, all[i]);
      if i < |ps| {
        assert ps[i] == all[i];
      } else {
        assert qs[i - |ps|] == all[i];
      }
    }
  }

  /** Monotonicity: appending paths never turns a trigger into a non-trigger. */
  lemma AppendKeepsTrigger(isFile: Path -> bool, ps: seq<Path>, qs: seq<Path>)
    requires HasTriggerFile(isFile, ps)
    ensures HasTriggerFile(isFile, ps + qs) && HasTriggerFile(isFile, qs + ps)
  {
    TriggerOfAppend(isFile, ps, qs);
    TriggerOfAppend(isFile, qs, ps);
  }

  /** The answer depends only on which paths are present, not on their order or repetition. */
  lemma {:induction false} TriggerIgnoresOrder(isFile: Path -> bool, ps: seq<Path>, qs: seq<Path>)
    requires forall p :: p in ps <==> p in qs
    ensures HasTriggerFile(isFile, ps) == HasTriggerFile(isFile, qs)
  {
    if HasTriggerFile(isFile, ps) {
      var i :| 0 <= i < |ps| && Qualifies(isFile, ps[i]);
      assert ps[i] in qs;
      var j :| 0 <= j < |qs| && qs[j] == ps[i];
    }
    if HasTriggerFile(isFile, qs) {
      var j :| 0 <= j < |qs| && Qualifies(isFile, qs[j]);
      assert qs[j] in ps;
      var i :| 0 <= i < |ps| && ps[i] == qs[j];
    }
  }

  // Properties of the search over a batch.

  /** Events placed after the first relevant one never change what the search finds. */
  lemma FindIgnoresLaterEvents(isFile: Path -> bool, events: seq<Event>, later: seq<Event>)
    requires FindRelevant(isFile, events).Some?
    ensures FindRelevant(isFile, events + later) == FindRelevant(isFile, events)
  {
    FindOfAppend(events, later, (e: Event) => IsRelevant(isFile, e));
  }

  /** A batch of irrelevant events, however long, leads to nothing being found. */
  lemma {:induction false} IrrelevantBatchFindsNothing(isFile: Path -> bool, events: seq<Event>)
    requires forall i :: 0 <= i < |events| ==> !IsTriggerKind(events[i].kind)
    ensures OnDebounced(isFile, Debounced(events)) == Some(None)
  {
  }
}
