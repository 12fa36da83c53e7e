/** Staging and placing uploads (`librarian.py`), one file-system call a step, with any number of uploads,
    commits, discards and sweeps interleaved and the process dying at any point. */
module PlacementState {
  import opened Common
  import opened FileNames

  type Bytes = seq<int>

  /** A staged archive, or a file of the library. */
  datatype Path = Staged(id: Key) | Media(dir: Key, name: string)

  /** Who still has a file open for writing. */
  datatype Writer = Nobody | Uploader(p: int) | Committer(p: int)

  datatype File = File(bytes: Bytes, synced: bool, writer: Writer)

  /** An upload: writing its archive, or done writing and waiting for its record. */
  datatype Upload = Storing(id: Key, inode: int) | Stored(id: Key, inode: int)

  datatype Phase =
    | Looked                                        // record read, target free when looked at
    | Made(temporary: Path, out: int)               // temporary file created
    | Copying(temporary: Path, out: int, src: int)  // source opened
    | Flushed(temporary: Path, out: int)            // all bytes written and synced
    | Linked(temporary: Path)
    | Failed(temporary: Path)
    | Cleared                                       // placed, temporary name gone
    | Emptied                                       // staged archive gone too

  datatype Commit = Commit(id: Key, target: Path, phase: Phase)

  /** `records` are the sidecars: for each staged upload the bytes its size and digest describe. `staged`
      remembers them for good and `placed` which upload each new path came from: history, not files. */
  datatype State = State(names: map<Path, int>, files: map<int, File>, records: set<Key>, uploads: map<int, Upload>,
    commits: map<int, Commit>, used: set<Key>, staged: map<Key, Bytes>, placed: map<Path, Key>)

  datatype Step =
    | Open(p: int, id: Key, inode: int)
    | Receive(p: int, chunk: Bytes)
    | Close(p: int)
    | Reject(p: int)                     // too large, over quota or not a valid archive
    | Record(p: int)
    | DropArchive(id: Key)               // discard and the sweep of expired uploads
    | DropRecord(id: Key)
    | Look(p: int, id: Key, dir: Key, filename: string)
    | MakeTemporary(p: int, name: string, inode: int)
    | OpenSource(p: int)
    | CopyChunk(p: int, size: nat)
    | Flush(p: int)
    | Link(p: int)
    | Fail(p: int)                       // an error, handled by removing the temporary name
    | RemoveTemporary(p: int)
    | RemoveSource(p: int)
    | RemoveRecord(p: int)
    | Crash

  predicate Holding(phase: Phase) {
    phase.Made? || phase.Copying? || phase.Flushed? || phase.Linked? || phase.Failed?
  }

  ghost predicate Uploading(s: State, p: int) {
    p in s.uploads && s.uploads[p].inode in s.files
  }

  ghost predicate Committing(s: State, p: int) {
    p in s.commits
  }

  function Append(f: File, chunk: Bytes): File {
    f.(bytes := f.bytes + chunk)
  }

  /** The next read of a copy that has written `done` bytes. */
  function NextChunk(source: Bytes, done: nat, size: nat): Bytes {
    if done >= |source| then [] else if done + size >= |source| then source[done..] else source[done..done + size]
  }

  // ---- Uploads -----------------------------------------------------------------------------

  ghost function DoOpen(s: State, p: int, id: Key, inode: int): State {
    if p in s.uploads || id in s.used || inode in s.files || Staged(id) in s.names then s
    else s.(names := s.names[Staged(id) := inode], files := s.files[inode := File([], false, Uploader(p))],
      uploads := s.uploads[p := Storing(id, inode)], used := s.used + {id})
  }

  ghost function DoReceive(s: State, p: int, chunk: Bytes): State {
    if !(Uploading(s, p) && s.uploads[p].Storing?) then s
    else s.(files := s.files[s.uploads[p].inode := Append(s.files[s.uploads[p].inode], chunk)])
  }

  ghost function DoClose(s: State, p: int): State {
    if !(Uploading(s, p) && s.uploads[p].Storing?) then s
    else s.(uploads := s.uploads[p := Stored(s.uploads[p].id, s.uploads[p].inode)])
  }

  ghost function DoReject(s: State, p: int): State {
    if !Uploading(s, p) then s
    else s.(names := s.names - {Staged(s.uploads[p].id)}, uploads := s.uploads - {p})
  }

  ghost function DoRecord(s: State, p: int): State {
    if !(Uploading(s, p) && s.uploads[p].Stored?) then s
    else
      var (id, inode) := (s.uploads[p].id, s.uploads[p].inode);
      s.(records := s.records + {id}, staged := s.staged[id := s.files[inode].bytes],
        files := s.files[inode := s.files[inode].(writer := Nobody)], uploads := s.uploads - {p})
  }

  // ---- Commits -----------------------------------------------------------------------------

  ghost function InPhase(s: State, p: int, phase: Phase): State
    requires p in s.commits
  {
    s.(commits := s.commits[p := s.commits[p].(phase := phase)])
  }

  ghost function DoLook(s: State, p: int, id: Key, dir: Key, filename: string): State {
    var name := ValidFilename(filename);
    if p in s.commits || id !in s.records || name.None? then s
    else if Staged(id) !in s.names || Media(dir, name.value) in s.names then s
    else s.(commits := s.commits[p := Commit(id, Media(dir, name.value), Looked)])
  }

  ghost function DoMakeTemporary(s: State, p: int, name: string, inode: int): State {
    if !(p in s.commits && s.commits[p].phase.Looked? && s.commits[p].target.Media?) then s
    else
      var temporary := Media(s.commits[p].target.dir, name);
      if !IsTemporary(name) || temporary in s.names || inode in s.files then s
      else s.(names := s.names[temporary := inode], files := s.files[inode := File([], false, Committer(p))],
        commits := s.commits[p := s.commits[p].(phase := Made(temporary, inode))])
  }

  ghost function DoOpenSource(s: State, p: int): State {
    if !(p in s.commits && s.commits[p].phase.Made?) then s
    else
      var (phase, source) := (s.commits[p].phase, Staged(s.commits[p].id));
      if source in s.names then InPhase(s, p, Copying(phase.temporary, phase.out, s.names[source]))
      else InPhase(s, p, Failed(phase.temporary))
  }

  ghost predicate CanCopy(s: State, p: int) {
    && p in s.commits
    && s.commits[p].phase.Copying?
    && s.commits[p].phase.out in s.files
    && s.commits[p].phase.src in s.files
  }

  ghost function DoCopyChunk(s: State, p: int, size: nat): State {
    if !CanCopy(s, p) then s
    else
      var (out, src) := (s.commits[p].phase.out, s.commits[p].phase.src);
      s.(files := s.files[out := Append(s.files[out], NextChunk(s.files[src].bytes, |s.files[out].bytes|, size))])
  }

  ghost function DoFlush(s: State, p: int): State {
    if !CanCopy(s, p) then s
    else
      var phase := s.commits[p].phase;
      var out := phase.out;
      if |s.files[out].bytes| < |s.files[phase.src].bytes| then s
      else s.(files := s.files[out := File(s.files[out].bytes, true, Nobody)],
        commits := s.commits[p := s.commits[p].(phase := Flushed(phase.temporary, out))])
  }

  /** `os.link`: refused when the name is taken. */
  ghost function DoLink(s: State, p: int): State {
    if !(p in s.commits && s.commits[p].phase.Flushed?) then s
    else
      var (target, phase) := (s.commits[p].target, s.commits[p].phase);
      if target in s.names then InPhase(s, p, Failed(phase.temporary))
      else s.(names := s.names[target := phase.out], placed := s.placed[target := s.commits[p].id],
        commits := s.commits[p := s.commits[p].(phase := Linked(phase.temporary))])
  }

  ghost function DoFail(s: State, p: int): State {
    if p !in s.commits then s
    else if Holding(s.commits[p].phase) then InPhase(s, p, Failed(s.commits[p].phase.temporary))
    else s.(commits := s.commits - {p})
  }

  ghost function DoRemoveTemporary(s: State, p: int): State {
    if !(p in s.commits && (s.commits[p].phase.Linked? || s.commits[p].phase.Failed?)) then s
    else
      var phase := s.commits[p].phase;
      s.(names := s.names - {phase.temporary},
        commits := if phase.Linked? then s.commits[p := s.commits[p].(phase := Cleared)] else s.commits - {p})
  }

  ghost function DoRemoveSource(s: State, p: int): State {
    if !(p in s.commits && s.commits[p].phase.Cleared?) then s
    else s.(names := s.names - {Staged(s.commits[p].id)}, commits := s.commits[p := s.commits[p].(phase := Emptied)])
  }

  ghost function DoRemoveRecord(s: State, p: int): State {
    if !(p in s.commits && s.commits[p].phase.Emptied?) then s
    else s.(records := s.records - {s.commits[p].id}, commits := s.commits - {p})
  }

  ghost function Do(s: State, step: Step): State {
    match step
    case Open(p, id, inode) => DoOpen(s, p, id, inode)
    case Receive(p, chunk) => DoReceive(s, p, chunk)
    case Close(p) => DoClose(s, p)
    case Reject(p) => DoReject(s, p)
    case Record(p) => DoRecord(s, p)
    case DropArchive(id) => s.(names := s.names - {Staged(id)})
    case DropRecord(id) => s.(records := s.records - {id})
    case Look(p, id, dir, filename) => DoLook(s, p, id, dir, filename)
    case MakeTemporary(p, name, inode) => DoMakeTemporary(s, p, name, inode)
    case OpenSource(p) => DoOpenSource(s, p)
    case CopyChunk(p, size) => DoCopyChunk(s, p, size)
    case Flush(p) => DoFlush(s, p)
    case Link(p) => DoLink(s, p)
    case Fail(p) => DoFail(s, p)
    case RemoveTemporary(p) => DoRemoveTemporary(s, p)
    case RemoveSource(p) => DoRemoveSource(s, p)
    case RemoveRecord(p) => DoRemoveRecord(s, p)
    case Crash => s.(uploads := map[], commits := map[])
  }

  ghost function Run(s: State, steps: seq<Step>): State
    decreases |steps|
  {
    if steps == [] then s else Do(Run(s, steps[..|steps| - 1]), steps[|steps| - 1])
  }
}
