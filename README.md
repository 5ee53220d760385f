# servedir change filter, modelled in Dafny

`servedir` is a small development server. It serves the current directory over HTTP on port 5444, adds a live-reload layer, and watches the directory tree through a debounced `notify` watcher. This project models the one part of it with logic in it: the debouncer callback in `src/main.rs`. For every batch of debounced events, the callback looks for the first event that should count as a change. It uses `has_trigger_file` to decide whether an event's paths name a file worth reacting to.

Modules:

- `Iterators` (`iterators.dfy`): the iterator adapters the source chains together (`filter`, `filter_map`, `find`), as functions on sequences.
- `Paths` (`paths.dfy`): a path is the sequence of components that `Path::components` yields. `Path::file_name`, `Path::ends_with` and `str::starts_with` are defined on that sequence.
- `NotifyEvents` (`notify_events.dfy`): the watcher's event kinds with all their sub-kinds, a debounced event (kind plus paths), and the `Ok`/`Err` result the debouncer passes to the callback.
- `Servedir` (`servedir.dfy`): `has_trigger_file`, the event classifier inside `find`, the search over a batch, and the callback itself.

`Path::is_file` asks the operating system. In the model it is the parameter `isFile: Path -> bool`, an oracle.

Some details of the filter are easy to misread:

- `ends_with("~")` compares whole path components. Only a path whose last component is exactly `~` is rejected, so an editor backup such as `notes.txt~` still triggers (`BackupFileTriggers`).
- Only the file name is checked for a leading `.`. A file inside `.git` or any other dot-directory still triggers (`FileInDotDirectoryTriggers`).
- The callback keeps no state between batches; nothing records file contents or previously seen files.
- The first relevant event is found and then discarded. `reloader.reload()` is never called: the only call (src/main.rs:70) is commented out, so the model of the callback returns only what its search found.

## Model

| member | source | states |
|---|---|---|
| Iterators.Filter | src/main.rs:85-89 | every element kept satisfies the predicate and comes from the input, and every input element that satisfies it is kept |
| Iterators.FilterMap | src/main.rs:87 | every output is the `Some` payload of some input, and every `Some` payload is in the output |
| Iterators.FilterAppend | src/main.rs:85-89 | `filter` over a concatenation is the concatenation of the filtered parts, so it keeps input order and multiplicity |
| Iterators.FilterMapAppend | src/main.rs:87 | `filter_map` over a concatenation is the concatenation of the mapped parts, so payloads keep input order and multiplicity |
| Iterators.Find | src/main.rs:90-94 | `None` exactly when no element satisfies the predicate; otherwise the element at the least index that satisfies it |
| Iterators.FindOfAppend | src/main.rs:37-49 | once `find` has a hit in a prefix, elements appended after it do not change the result |
| Paths.FileName | src/main.rs:87 | a file name exists exactly when the last component is a normal name, and the path then ends with that name as a component |
| Paths.EndsWith | src/main.rs:86 | true exactly when the child is no longer than the path and matches the path's trailing components one by one |
| Paths.StartsWith | src/main.rs:89 | true exactly when the prefix is no longer than the string and matches its leading characters one by one |
| Paths.EndsWithTildeIsLastComponent | src/main.rs:86 | `ends_with("~")` holds exactly when the file name is the whole component `~` |
| Paths.BackupNameDoesNotEndWithTilde | src/main.rs:86 | a last component longer than `~` that ends in the character `~` is not matched by `ends_with("~")` |
| Servedir.QualifiesStages | src/main.rs:85-89 | the four filters in source order (is a file, not ending in `~`, has a file name, name not starting with `.`) accept exactly the paths of the reference definition `Qualifies` |
| Servedir.HasTriggerFile | src/main.rs:82-95 | true if and only if some path in the list is a trigger path (`Qualifies`) |
| Servedir.HasTriggerFileStages | src/main.rs:83-94 | something survives the pipeline to reach `find` exactly when some input path qualifies |
| Servedir.IsRelevant | src/main.rs:39-48 | an event counts exactly when it is a create or a data modification and its paths hold a trigger path |
| Servedir.FindRelevant | src/main.rs:37-49 | the search returns nothing exactly when no event counts; otherwise it returns the first counting event in batch order |
| Servedir.OnDebounced | src/main.rs:35-49 | an error result is not searched; a batch is searched, and the result is the first counting event in batch order, or nothing exactly when no event counts; what is found is a relevant create or data-modify event of the batch |
| Servedir.CreateIsRelevantIffTrigger | src/main.rs:40 | a create event of any sub-kind counts exactly when `has_trigger_file` holds for its paths |
| Servedir.DataModifyIsRelevantIffTrigger | src/main.rs:41-44 | a data modification of any change type counts exactly when `has_trigger_file` holds for its paths |
| Servedir.OtherKindsNeverRelevant | src/main.rs:45-47 | non-data modifications and every other kind (remove, access, any, other) never count, whatever their paths |
| Servedir.NoPathsNoTrigger | src/main.rs:82-94 | an empty path list never holds a trigger file |
| Servedir.FileInDotDirectoryTriggers | src/main.rs:87-89 | an existing file whose own name is visible triggers even inside a dot-directory |
| Servedir.BackupFileTriggers | src/main.rs:86 | an existing file named like `notes.txt~` triggers |
| Servedir.RejectedNamesNeverTrigger | src/main.rs:86-89 | a path with no file name, with last component `~`, or with a name starting with `.` never triggers |
| Servedir.TriggerOfAppend | src/main.rs:90-94 | the answer for a concatenation is the disjunction of the answers for its parts |
| Servedir.AppendKeepsTrigger | src/main.rs:90-94 | adding paths before or after a list that triggers keeps it triggering |
| Servedir.TriggerIgnoresOrder | src/main.rs:90-94 | lists holding the same paths, in any order and with any repetition, give the same answer |
| Servedir.FindIgnoresLaterEvents | src/main.rs:37-49 | events after the first counting one do not change what the search finds |
| Servedir.IrrelevantBatchFindsNothing | src/main.rs:39-48 | a batch with no create or data-modify events is searched and yields nothing |

## Left out

- HTTP serving (`ServeDir`, `Router`, the fallback "Page Not Found" page, binding port 5444): network I/O through library services.
- The live-reload layer and its reloader: an external library, and never called by the callback.
- Debounce timing and merging (the 250 ms window and the background thread): internal to the debouncer library. Its output is taken as a given batch of events.
- The recursive directory watch and `Path::is_file`: operating-system calls. `is_file` is an oracle parameter.
- Parsing a path string into components: the model takes the component sequence that `Path::components` produces. Windows prefix components are not modelled.
- `to_string_lossy`: file names are already strings in the model, so the conversion is the identity and the `map` stage is omitted.
- The `dbg!` output inside `find` and the tokio runtime plumbing: diagnostics and scheduling, with no effect on the decision.
- Event timestamps and event attributes: the callback never reads them.
- Laziness of the iterator chain: `is_file` is only asked until the first hit. The oracle is pure in the model, so this does not change the answer.
