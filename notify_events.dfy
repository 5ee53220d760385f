/**
 The event values the filesystem watcher delivers, after debouncing: an event
 kind with its sub-kinds, and the paths the event concerns. Timestamps and
 other attributes the filter never looks at are not modelled.
 */
module NotifyEvents {
  import opened Paths

  datatype CreateKind = CreateAny | CreateFile | CreateFolder | CreateOther

  datatype DataChange = DataAny | Size | Content | DataOther

  datatype MetadataKind =
    | MetadataAny | AccessTime | WriteTime | Permissions | Ownership | Extended | MetadataOther

  datatype RenameMode = RenameAny | RenameTo | RenameFrom | RenameBoth | RenameOther

  datatype ModifyKind =
    | ModifyAny
    | Data(change: DataChange)
    | Metadata(metadata: MetadataKind)
    | Name(rename: RenameMode)
    | ModifyOther

  datatype AccessMode = ModeAny | Execute | ModeRead | ModeWrite | ModeOther

  datatype AccessKind =
    | AccessAny | Read | Open(openMode: AccessMode) | Close(closeMode: AccessMode) | AccessOther

  datatype RemoveKind = RemoveAny | RemoveFile | RemoveFolder | RemoveOther

  datatype EventKind =
    | Any
    | Access(accessKind: AccessKind)
    | Create(createKind: CreateKind)
    | Modify(modifyKind: ModifyKind)
    | Remove(removeKind: RemoveKind)
    | Other

  /** One debounced event. */
  datatype Event = Event(kind: EventKind, paths: seq<Path>)

  /** A watcher error; only its presence matters to the callback. */
  datatype WatchError = WatchError(message: string, paths: seq<Path>)

  /** What the debouncer hands the callback: a batch of events, or the errors it hit. */
  datatype DebounceResult = Debounced(events: seq<Event>) | Failed(errors: seq<WatchError>)
}
