/** What no interleaving of uploads, commits, discards, sweeps and crashes can do to the library. */
module PlacementSafety {
  import opened Common
  import opened FileNames
  import opened PlacementState

  /** A library file under a name of its own, not a commit's temporary one. */
  predicate OfLibrary(path: Path) {
    path.Media? && !IsTemporary(path.name)
  }

  // ---- The invariant -----------------------------------------------------------------------

  /** Nobody writes to a file the library or a recorded upload can see, and the latter holds what was staged. */
  ghost predicate PathOk(path: Path, f: File, staged: map<Key, Bytes>) {
    && (OfLibrary(path) ==> f.writer == Nobody)
    && (path.Staged? && path.id in staged ==> f.writer == Nobody && f.bytes == staged[path.id])
  }

  ghost predicate NamesOk(names: map<Path, int>, files: map<int, File>, staged: map<Key, Bytes>) {
    forall path :: path in names ==> names[path] in files && PathOk(path, files[names[path]], staged)
  }

  ghost predicate UploadOk(names: map<Path, int>, files: map<int, File>, staged: map<Key, Bytes>, p: int, u: Upload) {
    && u.inode in files
    && files[u.inode].writer == Uploader(p)
    && u.id !in staged
    && (Staged(u.id) in names ==> names[Staged(u.id)] == u.inode)
  }

  ghost predicate UploadsOk(names: map<Path, int>, files: map<int, File>, staged: map<Key, Bytes>,
    uploads: map<int, Upload>)
  {
    && (forall p :: p in uploads ==> UploadOk(names, files, staged, p, uploads[p]))
    && (forall p, q :: p in uploads && q in uploads && uploads[p].id == uploads[q].id ==> p == q)
  }

  /** A temporary name that is still its commit's own. */
  ghost predicate Owns(names: map<Path, int>, temporary: Path) {
    temporary.Media? && IsTemporary(temporary.name) && temporary in names
  }

  ghost predicate PhaseOk(names: map<Path, int>, files: map<int, File>, bytes: Bytes, p: int, phase: Phase) {
    && (Holding(phase) ==> Owns(names, phase.temporary))
    && (phase.Made? || phase.Copying? ==> phase.out in files && files[phase.out].writer == Committer(p))
    && (phase.Made? ==> files[phase.out].bytes == [])
    && (phase.Copying? ==> phase.src in files && files[phase.src].writer == Nobody && files[phase.src].bytes == bytes)
    && (phase.Copying? ==> files[phase.out].bytes <= bytes)
    && (phase.Flushed? ==> phase.out in files && files[phase.out] == File(bytes, true, Nobody))
  }

  ghost predicate CommitOk(names: map<Path, int>, files: map<int, File>, staged: map<Key, Bytes>, p: int, c: Commit) {
    && c.id in staged
    && OfLibrary(c.target)
    && ScannerAccepts(c.target.name)
    && PhaseOk(names, files, staged[c.id], p, c.phase)
  }

  ghost predicate CommitsOk(names: map<Path, int>, files: map<int, File>, staged: map<Key, Bytes>,
    commits: map<int, Commit>)
  {
    forall p :: p in commits ==> CommitOk(names, files, staged, p, commits[p])
  }

  predicate SameTemporary(a: Phase, b: Phase) {
    Holding(a) && Holding(b) && a.temporary == b.temporary
  }

  ghost predicate Apart(commits: map<int, Commit>) {
    forall p, q :: p in commits && q in commits && p != q ==> !SameTemporary(commits[p].phase, commits[q].phase)
  }

  /** What a commit has placed is a name the scanner takes and holds all the bytes that were staged, synced. */
  ghost predicate Whole(path: Path, id: Key, names: map<Path, int>, files: map<int, File>, staged: map<Key, Bytes>) {
    && OfLibrary(path)
    && ScannerAccepts(path.name)
    && path in names
    && names[path] in files
    && id in staged
    && files[names[path]] == File(staged[id], true, Nobody)
  }

  ghost predicate PlacedOk(names: map<Path, int>, files: map<int, File>, staged: map<Key, Bytes>,
    placed: map<Path, Key>)
  {
    forall path :: path in placed ==> Whole(path, placed[path], names, files, staged)
  }

  ghost predicate IdsOk(records: set<Key>, uploads: map<int, Upload>, used: set<Key>, staged: map<Key, Bytes>) {
    && (forall id :: id in records ==> id in staged)
    && (forall id :: id in staged ==> id in used)
    && (forall p :: p in uploads ==> uploads[p].id in used)
  }

  /** Everything that involves files. */
  ghost predicate Sound(names: map<Path, int>, files: map<int, File>, staged: map<Key, Bytes>,
    uploads: map<int, Upload>, commits: map<int, Commit>, placed: map<Path, Key>)
  {
    && NamesOk(names, files, staged)
    && UploadsOk(names, files, staged, uploads)
    && CommitsOk(names, files, staged, commits)
    && PlacedOk(names, files, staged, placed)
  }

  ghost predicate Inv(s: State) {
    && Sound(s.names, s.files, s.staged, s.uploads, s.commits, s.placed)
    && Apart(s.commits)
    && IdsOk(s.records, s.uploads, s.used, s.staged)
  }

  // ---- Single changes ----------------------------------------------------------------------

  predicate WritesTo(phase: Phase, i: int) {
    (phase.Made? || phase.Copying?) && phase.out == i
  }

  lemma WriteFile(names: map<Path, int>, files: map<int, File>, staged: map<Key, Bytes>, uploads: map<int, Upload>,
    commits: map<int, Commit>, placed: map<Path, Key>, i: int, f: File)
    requires Sound(names, files, staged, uploads, commits, placed) && i in files && files[i].writer != Nobody
    requires forall p :: p in uploads && uploads[p].inode == i ==> f.writer == files[i].writer
    requires forall p :: p in commits && WritesTo(commits[p].phase, i) ==>
      commits[p].id in staged && PhaseOk(names, files[i := f], staged[commits[p].id], p, commits[p].phase)
    ensures Sound(names, files[i := f], staged, uploads, commits, placed)
  {
  }

  lemma AddFile(names: map<Path, int>, files: map<int, File>, staged: map<Key, Bytes>, uploads: map<int, Upload>,
    commits: map<int, Commit>, placed: map<Path, Key>, i: int, f: File)
    requires Sound(names, files, staged, uploads, commits, placed) && i !in files
    ensures Sound(names, files[i := f], staged, uploads, commits, placed)
  {
    var after := files[i := f];
    forall p | p in commits
      ensures CommitOk(names, after, staged, p, commits[p])
    {
      assert CommitOk(names, files, staged, p, commits[p]);
    }
    forall path | path in placed
      ensures Whole(path, placed[path], names, after, staged)
    {
      assert Whole(path, placed[path], names, files, staged);
    }
    forall p | p in uploads
      ensures UploadOk(names, after, staged, p, uploads[p])
    {
      assert UploadOk(names, files, staged, p, uploads[p]);
    }
  }

  lemma AddName(names: map<Path, int>, files: map<int, File>, staged: map<Key, Bytes>, uploads: map<int, Upload>,
    commits: map<int, Commit>, placed: map<Path, Key>, path: Path, i: int)
    requires Sound(names, files, staged, uploads, commits, placed) && path !in names
    requires i in files && PathOk(path, files[i], staged)
    requires forall p :: p in uploads ==> path != Staged(uploads[p].id)
    ensures Sound(names[path := i], files, staged, uploads, commits, placed)
  {
  }

  lemma DropName(names: map<Path, int>, files: map<int, File>, staged: map<Key, Bytes>, uploads: map<int, Upload>,
    commits: map<int, Commit>, placed: map<Path, Key>, path: Path)
    requires Sound(names, files, staged, uploads, commits, placed) && !OfLibrary(path)
    requires forall p :: p in commits && Holding(commits[p].phase) ==> commits[p].phase.temporary != path
    ensures Sound(names - {path}, files, staged, uploads, commits, placed)
  {
  }

  lemma AddStaged(names: map<Path, int>, files: map<int, File>, staged: map<Key, Bytes>, uploads: map<int, Upload>,
    commits: map<int, Commit>, placed: map<Path, Key>, id: Key, bytes: Bytes)
    requires Sound(names, files, staged, uploads, commits, placed) && id !in staged
    requires Staged(id) in names ==>
      files[names[Staged(id)]].writer == Nobody && files[names[Staged(id)]].bytes == bytes
    requires forall p :: p in uploads ==> uploads[p].id != id
    ensures Sound(names, files, staged[id := bytes], uploads, commits, placed)
  {
  }

  // ---- The steps of an upload --------------------------------------------------------------

  lemma OpenKeeps(s: State, p: int, id: Key, inode: int)
    requires Inv(s)
    ensures Inv(DoOpen(s, p, id, inode))
  {
    var after := DoOpen(s, p, id, inode);
    if after != s {
      var f := File([], false, Uploader(p));
      AddFile(s.names, s.files, s.staged, s.uploads, s.commits, s.placed, inode, f);
      AddName(s.names, after.files, s.staged, s.uploads, s.commits, s.placed, Staged(id), inode);
      assert UploadOk(after.names, after.files, s.staged, p, Storing(id, inode));
      hide NamesOk, CommitsOk, PlacedOk, UploadOk, Apart;
    }
  }

  lemma ReceiveKeeps(s: State, p: int, chunk: Bytes)
    requires Inv(s)
    ensures Inv(DoReceive(s, p, chunk))
  {
    if DoReceive(s, p, chunk) != s {
      var i := s.uploads[p].inode;
      assert UploadOk(s.names, s.files, s.staged, p, s.uploads[p]);
      forall q | q in s.commits
        ensures !WritesTo(s.commits[q].phase, i)
      {
        assert CommitOk(s.names, s.files, s.staged, q, s.commits[q]);
      }
      WriteFile(s.names, s.files, s.staged, s.uploads, s.commits, s.placed, i, Append(s.files[i], chunk));
      hide Sound, Apart;
    }
  }

  lemma RecordKeeps(s: State, p: int)
    requires Inv(s)
    ensures Inv(DoRecord(s, p))
  {
    var after := DoRecord(s, p);
    if after != s {
      var (id, i) := (s.uploads[p].id, s.uploads[p].inode);
      assert UploadOk(s.names, s.files, s.staged, p, s.uploads[p]);
      forall q | q in s.commits
        ensures !WritesTo(s.commits[q].phase, i)
      {
        assert CommitOk(s.names, s.files, s.staged, q, s.commits[q]);
      }
      forall q | q in after.uploads
        ensures after.uploads[q].inode != i && after.uploads[q].id != id
      {
        assert UploadOk(s.names, s.files, s.staged, q, s.uploads[q]);
      }
      assert Sound(s.names, s.files, s.staged, after.uploads, s.commits, s.placed);
      WriteFile(s.names, s.files, s.staged, after.uploads, s.commits, s.placed, i, s.files[i].(writer := Nobody));
      AddStaged(s.names, after.files, s.staged, after.uploads, s.commits, s.placed, id, s.files[i].bytes);
      hide Sound, Apart;
    }
  }

  lemma RejectKeeps(s: State, p: int)
    requires Inv(s)
    ensures Inv(DoReject(s, p))
  {
    var after := DoReject(s, p);
    if after != s {
      assert Sound(s.names, s.files, s.staged, after.uploads, s.commits, s.placed);
      DropStagedKeeps(s.names, s.files, s.staged, after.uploads, s.commits, s.placed, s.uploads[p].id);
      hide Sound, Apart;
    }
  }

  lemma DropStagedKeeps(names: map<Path, int>, files: map<int, File>, staged: map<Key, Bytes>,
    uploads: map<int, Upload>, commits: map<int, Commit>, placed: map<Path, Key>, id: Key)
    requires Sound(names, files, staged, uploads, commits, placed)
    ensures Sound(names - {Staged(id)}, files, staged, uploads, commits, placed)
  {
  }

  // ---- The steps of a commit ---------------------------------------------------------------

  lemma PhaseKeeps(s: State, p: int, phase: Phase)
    requires Inv(s) && p in s.commits && s.commits[p].id in s.staged
    requires PhaseOk(s.names, s.files, s.staged[s.commits[p].id], p, phase)
    requires Holding(phase) ==> Holding(s.commits[p].phase) && phase.temporary == s.commits[p].phase.temporary
    ensures Inv(InPhase(s, p, phase))
  {
  }

  lemma TargetOk(filename: string, dir: Key)
    requires ValidFilename(filename).Some?
    ensures var target := Media(dir, ValidFilename(filename).value); OfLibrary(target) && ScannerAccepts(target.name)
  {
    ValidFilenameSound(filename);
  }

  lemma AddCommit(s: State, p: int, c: Commit)
    requires Inv(s) && p !in s.commits && !Holding(c.phase)
    requires CommitOk(s.names, s.files, s.staged, p, c)
    ensures Inv(s.(commits := s.commits[p := c]))
  {
  }

  lemma LookKeeps(s: State, p: int, id: Key, dir: Key, filename: string)
    requires Inv(s)
    ensures Inv(DoLook(s, p, id, dir, filename))
  {
    if p !in s.commits && id in s.records && ValidFilename(filename).Some? {
      var c := Commit(id, Media(dir, ValidFilename(filename).value), Looked);
      TargetOk(filename, dir);
      assert id in s.staged;
      hide Inv, ValidFilename, OfLibrary, ScannerAccepts;
      assert CommitOk(s.names, s.files, s.staged, p, c);
      AddCommit(s, p, c);
    }
  }

  /** A commit starts exactly for a recorded upload whose archive is there, under a valid name that is free; otherwise
      nothing at all changes. */
  lemma CommitStartsExactly(s: State, p: int, id: Key, dir: Key, filename: string)
    requires p !in s.commits
    ensures var after := Do(s, Look(p, id, dir, filename));
      && (p in after.commits <==>
        && id in s.records
        && Staged(id) in s.names
        && exists name :: ValidFilename(filename) == Some(name) && Media(dir, name) !in s.names)
      && (p !in after.commits ==> after == s)
  {
    hide ValidFilename;
  }

  lemma MakeTemporaryKeeps(s: State, p: int, name: string, inode: int)
    requires Inv(s)
    ensures Inv(DoMakeTemporary(s, p, name, inode))
  {
    var after := DoMakeTemporary(s, p, name, inode);
    if after != s {
      var temporary := Media(s.commits[p].target.dir, name);
      assert CommitOk(s.names, s.files, s.staged, p, s.commits[p]);
      AddFile(s.names, s.files, s.staged, s.uploads, s.commits, s.placed, inode, File([], false, Committer(p)));
      AddName(s.names, after.files, s.staged, s.uploads, s.commits, s.placed, temporary, inode);
      assert CommitOk(after.names, after.files, s.staged, p, after.commits[p]);
      forall q | q in s.commits && Holding(s.commits[q].phase)
        ensures s.commits[q].phase.temporary != temporary
      {
        assert CommitOk(s.names, s.files, s.staged, q, s.commits[q]);
      }
      hide NamesOk, UploadsOk, PlacedOk, CommitOk, IdsOk, IsTemporary;
    }
  }

  lemma OpenSourceKeeps(s: State, p: int)
    requires Inv(s)
    ensures Inv(DoOpenSource(s, p))
  {
    if p in s.commits && s.commits[p].phase.Made? {
      var (phase, source) := (s.commits[p].phase, Staged(s.commits[p].id));
      assert CommitOk(s.names, s.files, s.staged, p, s.commits[p]);
      if source in s.names {
        assert PathOk(source, s.files[s.names[source]], s.staged);
        PhaseKeeps(s, p, Copying(phase.temporary, phase.out, s.names[source]));
      } else {
        PhaseKeeps(s, p, Failed(phase.temporary));
      }
    }
  }

  lemma PrefixGrows(source: Bytes, done: Bytes, size: nat)
    requires done <= source
    ensures done + NextChunk(source, |done|, size) <= source
  {
  }

  lemma CopyChunkKeeps(s: State, p: int, size: nat)
    requires Inv(s)
    ensures Inv(DoCopyChunk(s, p, size))
  {
    if CanCopy(s, p) {
      var (out, src, bytes) := (s.commits[p].phase.out, s.commits[p].phase.src, s.staged);
      assert CommitOk(s.names, s.files, s.staged, p, s.commits[p]);
      var f := Append(s.files[out], NextChunk(s.files[src].bytes, |s.files[out].bytes|, size));
      PrefixGrows(s.files[src].bytes, s.files[out].bytes, size);
      forall q | q in s.commits && WritesTo(s.commits[q].phase, out)
        ensures q == p
      {
        assert CommitOk(s.names, s.files, s.staged, q, s.commits[q]);
      }
      WriteFile(s.names, s.files, s.staged, s.uploads, s.commits, s.placed, out, f);
      hide Sound, Apart;
    }
  }

  lemma FlushKeeps(s: State, p: int)
    requires Inv(s)
    ensures Inv(DoFlush(s, p))
  {
    if DoFlush(s, p) != s {
      var phase := s.commits[p].phase;
      var (out, src) := (phase.out, phase.src);
      assert CommitOk(s.names, s.files, s.staged, p, s.commits[p]);
      var f := File(s.files[out].bytes, true, Nobody);
      assert s.files[out].bytes == s.files[src].bytes;
      var done := s.commits[p := s.commits[p].(phase := Flushed(phase.temporary, out))];
      FailedKeeps(s, p);
      var failed := InPhase(s, p, Failed(phase.temporary));
      forall q | q in failed.commits
        ensures !WritesTo(failed.commits[q].phase, out)
      {
        assert CommitOk(s.names, s.files, s.staged, q, s.commits[q]);
      }
      forall q | q in s.uploads
        ensures s.uploads[q].inode != out
      {
        assert UploadOk(s.names, s.files, s.staged, q, s.uploads[q]);
      }
      WriteFile(s.names, s.files, s.staged, s.uploads, failed.commits, s.placed, out, f);
      var written := failed.(files := s.files[out := f]);
      PhaseKeeps(written, p, Flushed(phase.temporary, out));
      assert InPhase(written, p, Flushed(phase.temporary, out)) == DoFlush(s, p) by {
        assert failed.commits[p := failed.commits[p].(phase := Flushed(phase.temporary, out))] == done;
      }
      hide Inv;
    }
  }

  lemma FailedKeeps(s: State, p: int)
    requires Inv(s) && p in s.commits && Holding(s.commits[p].phase)
    ensures Inv(InPhase(s, p, Failed(s.commits[p].phase.temporary)))
  {
  }

  lemma LinkKeeps(s: State, p: int)
    requires Inv(s)
    ensures Inv(DoLink(s, p))
  {
    if p in s.commits && s.commits[p].phase.Flushed? {
      var (c, phase) := (s.commits[p], s.commits[p].phase);
      assert CommitOk(s.names, s.files, s.staged, p, c);
      if c.target in s.names {
        FailedKeeps(s, p);
      } else {
        PhaseKeeps(s, p, Linked(phase.temporary));
        var linked := InPhase(s, p, Linked(phase.temporary));
        AddName(s.names, s.files, s.staged, s.uploads, linked.commits, s.placed, c.target, phase.out);
        var names := s.names[c.target := phase.out];
        assert Whole(c.target, c.id, names, s.files, s.staged);
        assert c.target !in s.placed by { WereNamed(s, c.target); }
        AddPlaced(names, s.files, s.staged, s.uploads, linked.commits, s.placed, c.target, c.id);
        hide Sound, Apart;
      }
    }
  }

  /** `os.link` never replaces a name: a taken one leaves every name and file as it was, and a free one appears
      at once with all the bytes that were staged, synced, and nothing else changes. */
  lemma LinkPublishesWhole(s: State, p: int)
    requires Inv(s) && p in s.commits && s.commits[p].phase.Flushed?
    ensures var (t, c) := (DoLink(s, p), s.commits[p]);
      && t.files == s.files && t.records == s.records && t.staged == s.staged
      && (c.target in s.names ==> t.names == s.names && t.placed == s.placed)
      && (c.target !in s.names ==>
        && t.names.Keys == s.names.Keys + {c.target}
        && (forall path :: path in s.names ==> t.names[path] == s.names[path])
        && c.target !in s.placed && t.placed == s.placed[c.target := c.id]
        && Whole(c.target, c.id, t.names, t.files, t.staged))
  {
    assert CommitOk(s.names, s.files, s.staged, p, s.commits[p]);
    WereNamed(s, s.commits[p].target);
    hide Inv, ScannerAccepts, IsTemporary;
  }

  lemma WereNamed(s: State, path: Path)
    requires Inv(s)
    ensures path in s.placed ==> path in s.names
  {
  }

  lemma AddPlaced(names: map<Path, int>, files: map<int, File>, staged: map<Key, Bytes>, uploads: map<int, Upload>,
    commits: map<int, Commit>, placed: map<Path, Key>, path: Path, id: Key)
    requires Sound(names, files, staged, uploads, commits, placed) && Whole(path, id, names, files, staged)
    ensures Sound(names, files, staged, uploads, commits, placed[path := id])
  {
  }

  lemma DropCommitKeeps(s: State, p: int)
    requires Inv(s)
    ensures Inv(s.(commits := s.commits - {p}))
  {
  }

  lemma RemoveTemporaryKeeps(s: State, p: int)
    requires Inv(s)
    ensures Inv(DoRemoveTemporary(s, p))
  {
    var after := DoRemoveTemporary(s, p);
    if after != s {
      var (c, temporary) := (s.commits[p], s.commits[p].phase.temporary);
      assert CommitOk(s.names, s.files, s.staged, p, c);
      if c.phase.Linked? {
        PhaseKeeps(s, p, Cleared);
      } else {
        DropCommitKeeps(s, p);
      }
      forall q | q in after.commits && Holding(after.commits[q].phase)
        ensures after.commits[q].phase.temporary != temporary
      {
        assert q != p && !SameTemporary(s.commits[q].phase, c.phase);
      }
      DropName(s.names, s.files, s.staged, s.uploads, after.commits, s.placed, temporary);
      hide Sound, Apart, IdsOk;
    }
  }

  lemma RemoveSourceKeeps(s: State, p: int)
    requires Inv(s)
    ensures Inv(DoRemoveSource(s, p))
  {
    if p in s.commits && s.commits[p].phase.Cleared? {
      assert CommitOk(s.names, s.files, s.staged, p, s.commits[p]);
      PhaseKeeps(s, p, Emptied);
      var emptied := InPhase(s, p, Emptied);
      DropStagedKeeps(s.names, s.files, s.staged, s.uploads, emptied.commits, s.placed, s.commits[p].id);
      hide Sound, Apart, IdsOk;
    }
  }

  lemma RemoveRecordKeeps(s: State, p: int)
    requires Inv(s)
    ensures Inv(DoRemoveRecord(s, p))
  {
  }

  lemma CloseKeeps(s: State, p: int)
    requires Inv(s)
    ensures Inv(DoClose(s, p))
  {
  }

  lemma FailKeeps(s: State, p: int)
    requires Inv(s)
    ensures Inv(DoFail(s, p))
  {
    if p in s.commits {
      if Holding(s.commits[p].phase) {
        FailedKeeps(s, p);
      } else {
        DropCommitKeeps(s, p);
      }
      hide Inv;
    }
  }

  lemma DropsKeep(s: State, id: Key)
    requires Inv(s)
    ensures Inv(s.(names := s.names - {Staged(id)})) && Inv(s.(records := s.records - {id}))
  {
    DropStagedKeeps(s.names, s.files, s.staged, s.uploads, s.commits, s.placed, id);
    hide Sound, Apart;
  }

  lemma CrashKeeps(s: State)
    requires Inv(s)
    ensures Inv(s.(uploads := map[], commits := map[]))
  {
  }

  lemma DoKeeps(s: State, step: Step)
    requires Inv(s)
    ensures Inv(Do(s, step))
  {
    hide Inv, DoOpen, DoReceive, DoRecord, DoLook, DoMakeTemporary, DoCopyChunk, DoFlush, DoLink, DoRemoveTemporary;
    match step
    case Open(p, id, inode) => OpenKeeps(s, p, id, inode);
    case Receive(p, chunk) => ReceiveKeeps(s, p, chunk);
    case Close(p) => CloseKeeps(s, p);
    case Reject(p) => RejectKeeps(s, p);
    case Record(p) => RecordKeeps(s, p);
    case DropArchive(id) => DropsKeep(s, id);
    case DropRecord(id) => DropsKeep(s, id);
    case Look(p, id, dir, filename) => LookKeeps(s, p, id, dir, filename);
    case MakeTemporary(p, name, inode) => MakeTemporaryKeeps(s, p, name, inode);
    case OpenSource(p) => OpenSourceKeeps(s, p);
    case CopyChunk(p, size) => CopyChunkKeeps(s, p, size);
    case Flush(p) => FlushKeeps(s, p);
    case Link(p) => LinkKeeps(s, p);
    case Fail(p) => FailKeeps(s, p);
    case RemoveTemporary(p) => RemoveTemporaryKeeps(s, p);
    case RemoveSource(p) => RemoveSourceKeeps(s, p);
    case RemoveRecord(p) => RemoveRecordKeeps(s, p);
    case Crash => CrashKeeps(s);
  }

  lemma {:induction false} RunKeeps(s: State, steps: seq<Step>)
    requires Inv(s)
    ensures Inv(Run(s, steps))
    decreases |steps|
  {
    if steps != [] {
      RunKeeps(s, steps[..|steps| - 1]);
      DoKeeps(Run(s, steps[..|steps| - 1]), steps[|steps| - 1]);
    }
  }

  // ---- What stays, and what appears --------------------------------------------------------

  /** A library path keeps its file, and the file its bytes. */
  ghost predicate Untouched(s: State, t: State, path: Path) {
    && path in s.names
    && path in t.names
    && t.names[path] == s.names[path]
    && s.names[path] in s.files
    && t.names[path] in t.files
    && t.files[t.names[path]] == s.files[s.names[path]]
  }

  ghost predicate FilesSteady(before: map<int, File>, after: map<int, File>) {
    forall i :: i in before && before[i].writer == Nobody ==> i in after && after[i] == before[i]
  }

  ghost predicate NamesSteady(before: map<Path, int>, after: map<Path, int>, placed: map<Path, Key>) {
    && (forall path :: path in before && OfLibrary(path) ==> path in after && after[path] == before[path])
    && (forall path :: path in after && OfLibrary(path) && path !in before ==> path in placed)
  }

  ghost predicate PlacedSteady(before: map<Path, Key>, after: map<Path, Key>) {
    forall path :: path in before ==> path in after && after[path] == before[path]
  }

  /** Finished files do not change, library names stay, and a new one is recorded as placed. */
  ghost predicate Steady(s: State, t: State) {
    FilesSteady(s.files, t.files) && NamesSteady(s.names, t.names, t.placed) && PlacedSteady(s.placed, t.placed)
  }

  lemma WriteSteady(files: map<int, File>, i: int, f: File)
    requires i in files ==> files[i].writer != Nobody
    ensures FilesSteady(files, files[i := f])
  {
  }

  lemma NothingChanges(s: State)
    ensures Steady(s, s)
  {
  }

  lemma LinkSteady(s: State, p: int)
    requires Inv(s)
    ensures Steady(s, DoLink(s, p))
  {
    NothingChanges(s);
    if p in s.commits && s.commits[p].target !in s.names {
      WereNamed(s, s.commits[p].target);
    }
    hide Inv, FilesSteady;
  }

  lemma RemoveTemporarySteady(s: State, p: int)
    requires Inv(s)
    ensures Steady(s, DoRemoveTemporary(s, p))
  {
  }

  lemma UploadSteady(s: State, p: int, chunk: Bytes)
    requires Inv(s)
    ensures Steady(s, DoReceive(s, p, chunk)) && Steady(s, DoRecord(s, p))
  {
    NothingChanges(s);
    if Uploading(s, p) {
      var i := s.uploads[p].inode;
      assert UploadOk(s.names, s.files, s.staged, p, s.uploads[p]);
      WriteSteady(s.files, i, Append(s.files[i], chunk));
      WriteSteady(s.files, i, s.files[i].(writer := Nobody));
    }
    hide Inv, FilesSteady, PlacedSteady, NamesSteady, UploadOk;
  }

  lemma CopySteady(s: State, p: int, size: nat)
    requires Inv(s)
    ensures Steady(s, DoCopyChunk(s, p, size)) && Steady(s, DoFlush(s, p))
  {
    NothingChanges(s);
    if CanCopy(s, p) {
      var (out, src) := (s.commits[p].phase.out, s.commits[p].phase.src);
      assert CommitOk(s.names, s.files, s.staged, p, s.commits[p]);
      WriteSteady(s.files, out, Append(s.files[out], NextChunk(s.files[src].bytes, |s.files[out].bytes|, size)));
      WriteSteady(s.files, out, File(s.files[out].bytes, true, Nobody));
    }
    hide Inv, FilesSteady, PlacedSteady, NamesSteady, CommitOk;
  }

  lemma CreateSteady(s: State, p: int, id: Key, name: string, inode: int)
    ensures Steady(s, DoOpen(s, p, id, inode)) && Steady(s, DoMakeTemporary(s, p, name, inode))
  {
    NothingChanges(s);
    if inode !in s.files {
      WriteSteady(s.files, inode, File([], false, Uploader(p)));
      WriteSteady(s.files, inode, File([], false, Committer(p)));
    }
    hide FilesSteady, PlacedSteady, IsTemporary;
  }

  lemma DropStagedSteady(s: State, p: int, id: Key)
    ensures Steady(s, DoReject(s, p)) && Steady(s, DoRemoveSource(s, p))
    ensures Steady(s, s.(names := s.names - {Staged(id)}))
  {
    NothingChanges(s);
    hide FilesSteady, PlacedSteady;
  }

  /** The steps that touch neither files nor names. */
  lemma QuietSteady(s: State, p: int, id: Key, dir: Key, filename: string)
    ensures Steady(s, DoClose(s, p)) && Steady(s, DoLook(s, p, id, dir, filename)) && Steady(s, DoOpenSource(s, p))
    ensures Steady(s, DoFail(s, p)) && Steady(s, DoRemoveRecord(s, p))
    ensures Steady(s, s.(records := s.records - {id})) && Steady(s, s.(uploads := map[], commits := map[]))
  {
    NothingChanges(s);
    hide FilesSteady, PlacedSteady, NamesSteady, ValidFilename;
  }

  lemma DoSteady(s: State, step: Step)
    requires Inv(s)
    ensures Steady(s, Do(s, step))
  {
    hide Inv, Steady, DoOpen, DoReceive, DoRecord, DoLook, DoMakeTemporary, DoCopyChunk, DoFlush, DoLink;
    hide DoRemoveTemporary;
    var any := Key("");
    match step
    case Open(p, id, inode) => CreateSteady(s, p, id, "", inode);
    case MakeTemporary(p, name, inode) => CreateSteady(s, p, any, name, inode);
    case Receive(p, chunk) => UploadSteady(s, p, chunk);
    case Record(p) => UploadSteady(s, p, []);
    case CopyChunk(p, size) => CopySteady(s, p, size);
    case Flush(p) => CopySteady(s, p, 0);
    case Link(p) => LinkSteady(s, p);
    case RemoveTemporary(p) => RemoveTemporarySteady(s, p);
    case Reject(p) => DropStagedSteady(s, p, any);
    case DropArchive(id) => DropStagedSteady(s, 0, id);
    case RemoveSource(p) => DropStagedSteady(s, p, any);
    case Close(p) => QuietSteady(s, p, any, any, "");
    case Look(p, id, dir, filename) => QuietSteady(s, p, id, dir, filename);
    case OpenSource(p) => QuietSteady(s, p, any, any, "");
    case Fail(p) => QuietSteady(s, p, any, any, "");
    case RemoveRecord(p) => QuietSteady(s, p, any, any, "");
    case DropRecord(id) => QuietSteady(s, 0, id, any, "");
    case Crash => QuietSteady(s, 0, any, any, "");
  }

  lemma SteadyChains(a: State, b: State, c: State)
    requires Steady(a, b) && Steady(b, c)
    ensures Steady(a, c)
  {
  }

  lemma {:induction false} RunSteady(s: State, steps: seq<Step>)
    requires Inv(s)
    ensures Steady(s, Run(s, steps))
    decreases |steps|
  {
    if steps == [] {
      NothingChanges(s);
    } else {
      var before := steps[..|steps| - 1];
      RunSteady(s, before);
      RunKeeps(s, before);
      DoSteady(Run(s, before), steps[|steps| - 1]);
      SteadyChains(s, Run(s, before), Run(s, steps));
    }
  }

  /** A library as the service finds it: no upload or commit in progress, nothing staged. */
  ghost predicate Initial(s: State) {
    && s.records == {} && s.uploads == map[] && s.commits == map[] && s.staged == map[] && s.placed == map[]
    && (forall path :: path in s.names ==>
      path.Media? && s.names[path] in s.files && s.files[s.names[path]].writer == Nobody)
  }

  lemma InitialInv(s: State)
    requires Initial(s)
    ensures Inv(s)
  {
  }

  /** However uploads, commits, discards, sweeps and crashes interleave, no library file that was there
      changes or disappears. */
  lemma LibraryUntouched(s: State, steps: seq<Step>, path: Path)
    requires Inv(s) && path in s.names && OfLibrary(path)
    ensures Untouched(s, Run(s, steps), path)
  {
    RunSteady(s, steps);
    assert s.names[path] in s.files && PathOk(path, s.files[s.names[path]], s.staged);
    hide Inv, Run;
  }

  /** At every moment of every run, each file a scan would take is either one that was there at the start,
      unchanged, or holds all the bytes of a staged upload, synced to disk. */
  lemma ScannerSeesWholeFiles(s: State, steps: seq<Step>, path: Path)
    requires Initial(s) && path in Run(s, steps).names && path.Media? && ScannerAccepts(path.name)
    ensures var t := Run(s, steps);
      || Untouched(s, t, path)
      || (path in t.placed && t.placed[path] in t.staged && t.names[path] in t.files
          && t.files[t.names[path]].bytes == t.staged[t.placed[path]] && t.files[t.names[path]].synced)
  {
    InitialInv(s);
    RunKeeps(s, steps);
    RunSteady(s, steps);
    TemporaryIsHidden(path.name);
    hide Run, ScannerAccepts, IsTemporary;
    if path in s.names {
      assert s.names[path] in s.files && PathOk(path, s.files[s.names[path]], s.staged);
    } else {
      assert Whole(path, Run(s, steps).placed[path], Run(s, steps).names, Run(s, steps).files, Run(s, steps).staged);
    }
  }

  /** Whatever else is left lying in the library directories, a scan does not take. */
  lemma LeftoversAreHidden(s: State, steps: seq<Step>, path: Path)
    requires Initial(s) && path in Run(s, steps).names && path.Media?
    requires path !in s.names && path !in Run(s, steps).placed
    ensures IsTemporary(path.name) && !ScannerAccepts(path.name)
  {
    InitialInv(s);
    RunSteady(s, steps);
    TemporaryIsHidden(path.name);
    hide Run, ScannerAccepts, IsTemporary;
  }

  // ---- A commit left to itself -------------------------------------------------------------

  /** A commit that has its target and a temporary name to work under, and nothing in its way. */
  ghost predicate Clear(s: State, p: int, id: Key, dir: Key, file: string, name: string, inode: int) {
    && p !in s.commits && id in s.records && id in s.staged
    && Staged(id) in s.names && s.names[Staged(id)] in s.files && s.files[s.names[Staged(id)]].bytes == s.staged[id]
    && Media(dir, file) !in s.names && !IsTemporary(file)
    && IsTemporary(name) && Media(dir, name) !in s.names && inode !in s.files
  }

  ghost function Opened(s: State, p: int, id: Key, dir: Key, file: string, name: string, inode: int): State
    requires Staged(id) in s.names
  {
    s.(names := s.names[Media(dir, name) := inode], files := s.files[inode := File([], false, Committer(p))],
      commits := s.commits[p := Commit(id, Media(dir, file), Copying(Media(dir, name), inode, s.names[Staged(id)]))])
  }

  lemma CommitOpens(s: State, p: int, id: Key, dir: Key, file: string, name: string, inode: int)
    requires Clear(s, p, id, dir, file, name, inode)
    ensures var looked := s.(commits := s.commits[p := Commit(id, Media(dir, file), Looked)]);
      DoOpenSource(DoMakeTemporary(looked, p, name, inode), p) == Opened(s, p, id, dir, file, name, inode)
  {
    hide IsTemporary;
    var looked := s.(commits := s.commits[p := Commit(id, Media(dir, file), Looked)]);
    var made := DoMakeTemporary(looked, p, name, inode);
    assert made.commits == s.commits[p := Commit(id, Media(dir, file), Made(Media(dir, name), inode))];
    assert DoOpenSource(made, p).commits == Opened(s, p, id, dir, file, name, inode).commits;
  }

  ghost function Copied(s: State, p: int, id: Key, dir: Key, file: string, name: string, inode: int): State
    requires id in s.staged
  {
    s.(names := s.names[Media(dir, name) := inode], files := s.files[inode := File(s.staged[id], true, Nobody)],
      commits := s.commits[p := Commit(id, Media(dir, file), Flushed(Media(dir, name), inode))])
  }

  lemma CommitCopies(s: State, p: int, id: Key, dir: Key, file: string, name: string, inode: int)
    requires Clear(s, p, id, dir, file, name, inode)
    ensures DoFlush(DoCopyChunk(Opened(s, p, id, dir, file, name, inode), p, |s.staged[id]|), p)
      == Copied(s, p, id, dir, file, name, inode)
  {
    hide IsTemporary;
    var bytes := s.staged[id];
    assert NextChunk(bytes, 0, |bytes|) == bytes && [] + bytes == bytes;
    var copied := DoCopyChunk(Opened(s, p, id, dir, file, name, inode), p, |bytes|);
    assert copied.files == s.files[inode := File(bytes, false, Committer(p))];
    assert DoFlush(copied, p).files == Copied(s, p, id, dir, file, name, inode).files;
    assert DoFlush(copied, p).commits == Copied(s, p, id, dir, file, name, inode).commits;
  }

  ghost function Published(s: State, p: int, id: Key, dir: Key, file: string, inode: int): State
    requires id in s.staged
  {
    s.(names := s.names[Media(dir, file) := inode], files := s.files[inode := File(s.staged[id], true, Nobody)],
      placed := s.placed[Media(dir, file) := id], commits := s.commits[p := Commit(id, Media(dir, file), Cleared)])
  }

  lemma CommitPublishes(s: State, p: int, id: Key, dir: Key, file: string, name: string, inode: int)
    requires Clear(s, p, id, dir, file, name, inode)
    ensures DoRemoveTemporary(DoLink(Copied(s, p, id, dir, file, name, inode), p), p)
      == Published(s, p, id, dir, file, inode)
  {
    var (target, temporary) := (Media(dir, file), Media(dir, name));
    assert target != temporary;
    hide IsTemporary;
    var linked := DoLink(Copied(s, p, id, dir, file, name, inode), p);
    assert linked.commits == s.commits[p := Commit(id, target, Linked(temporary))];
    assert DoRemoveTemporary(linked, p).names == s.names[target := inode];
    assert DoRemoveTemporary(linked, p).commits == s.commits[p := Commit(id, target, Cleared)];
  }

  lemma CommitTidiesUp(s: State, p: int, id: Key, dir: Key, file: string, inode: int)
    requires id in s.staged && p !in s.commits
    ensures DoRemoveRecord(DoRemoveSource(Published(s, p, id, dir, file, inode), p), p) ==
      s.(names := s.names[Media(dir, file) := inode] - {Staged(id)}, records := s.records - {id},
        files := s.files[inode := File(s.staged[id], true, Nobody)], placed := s.placed[Media(dir, file) := id])
  {
    var emptied := DoRemoveSource(Published(s, p, id, dir, file, inode), p);
    assert emptied.commits == s.commits[p := Commit(id, Media(dir, file), Emptied)];
    assert DoRemoveRecord(emptied, p).commits == s.commits;
  }

  /** All the calls of one commit with nothing in between, reading the archive in one piece. */
  ghost function CommitAlone(s: State, p: int, id: Key, dir: Key, filename: string, name: string, inode: int,
    size: nat): State
  {
    var source := DoOpenSource(DoMakeTemporary(DoLook(s, p, id, dir, filename), p, name, inode), p);
    var linked := DoLink(DoFlush(DoCopyChunk(source, p, size), p), p);
    DoRemoveRecord(DoRemoveSource(DoRemoveTemporary(linked, p), p), p)
  }

  /** A commit that nothing disturbs succeeds: the target appears, complete and synced, the staged pair is gone,
      and every other name, file, record and commit is as it was. */
  lemma UndisturbedCommitPlaces(s: State, p: int, id: Key, dir: Key, filename: string, name: string, inode: int)
    requires Inv(s) && p !in s.commits && id in s.records && Staged(id) in s.names && ValidFilename(filename).Some?
    requires Media(dir, ValidFilename(filename).value) !in s.names
    requires IsTemporary(name) && Media(dir, name) !in s.names && inode !in s.files
    ensures id in s.staged
    ensures var target := Media(dir, ValidFilename(filename).value);
      CommitAlone(s, p, id, dir, filename, name, inode, |s.staged[id]|) ==
        s.(names := s.names[target := inode] - {Staged(id)}, records := s.records - {id},
          files := s.files[inode := File(s.staged[id], true, Nobody)], placed := s.placed[target := id])
  {
    TargetOk(filename, dir);
    assert PathOk(Staged(id), s.files[s.names[Staged(id)]], s.staged);
    hide Inv, ValidFilename, IsTemporary, ScannerAccepts;
    var file := ValidFilename(filename).value;
    assert Clear(s, p, id, dir, file, name, inode);
    CommitOpens(s, p, id, dir, file, name, inode);
    CommitCopies(s, p, id, dir, file, name, inode);
    CommitPublishes(s, p, id, dir, file, name, inode);
    CommitTidiesUp(s, p, id, dir, file, inode);
    hide DoMakeTemporary, DoOpenSource, DoCopyChunk, DoFlush, DoLink, DoRemoveTemporary, DoRemoveSource, DoRemoveRecord;
    assert DoLook(s, p, id, dir, filename) == s.(commits := s.commits[p := Commit(id, Media(dir, file), Looked)]);
  }
}
