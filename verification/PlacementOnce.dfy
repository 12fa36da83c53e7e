/** When an upload can still be placed: exactly which states allow a further placement, and which have seen the
    last one. */
module PlacementOnce {
  import opened Common
  import opened FileNames
  import opened PlacementState
  import opened PlacementSafety

  /** A commit of the upload that can still reach its `os.link`. */
  ghost predicate Able(names: map<Path, int>, id: Key, c: Commit) {
    && c.id == id
    && c.target !in names
    && (c.phase.Copying? || c.phase.Flushed? || ((c.phase.Looked? || c.phase.Made?) && Staged(id) in names))
  }

  ghost predicate SomeAble(names: map<Path, int>, id: Key, commits: map<int, Commit>) {
    exists p :: p in commits && Able(names, id, commits[p])
  }

  /** The upload has its archive and its record, or a commit of it is under way towards a free name. */
  ghost predicate CanPlace(s: State, id: Key) {
    (Staged(id) in s.names && id in s.records) || SomeAble(s.names, id, s.commits)
  }

  /** A name the upload is placed under in `t` and was not in `s`. */
  ghost predicate Gains(s: State, t: State, path: Path, id: Key) {
    path !in s.placed && path in t.placed && t.placed[path] == id
  }

  // ---- Without any of these, nothing more is placed ----------------------------------------

  predicate Live(phase: Phase) {
    phase.Looked? || phase.Made? || phase.Copying? || phase.Flushed?
  }

  predicate Reading(phase: Phase) {
    phase.Copying? || phase.Flushed?
  }

  /** Where a commit that can still place the upload comes from. */
  ghost predicate Descends(s: State, p: int, c: Commit, id: Key) {
    || (Staged(id) in s.names && id in s.records)
    || (&& p in s.commits && s.commits[p].id == id && s.commits[p].target == c.target && Live(s.commits[p].phase)
        && (Reading(c.phase) ==> Reading(s.commits[p].phase) || Staged(id) in s.names))
  }

  ghost predicate CommitsDescend(s: State, commits: map<int, Commit>, id: Key) {
    forall p :: p in commits && commits[p].id == id && Live(commits[p].phase) ==> Descends(s, p, commits[p], id)
  }

  ghost predicate PlacedByAble(s: State, placed: map<Path, Key>, id: Key) {
    forall path :: path in placed && placed[path] == id && path !in s.placed ==> SomeAble(s.names, id, s.commits)
  }

  /** A step brings back neither the archive nor the record of an upload, and places it only through a commit
      that could. */
  ghost predicate Inherits(s: State, t: State, id: Key) {
    && (Staged(id) in t.names ==> Staged(id) in s.names)
    && (id in t.records ==> id in s.records)
    && CommitsDescend(s, t.commits, id)
    && PlacedByAble(s, t.placed, id)
    && id in t.staged
  }

  lemma SameCommits(s: State, id: Key)
    ensures CommitsDescend(s, s.commits, id) && PlacedByAble(s, s.placed, id)
  {
  }

  lemma CommitStepsInherit(s: State, p: int, size: nat, name: string, inode: int, id: Key)
    requires Inv(s) && id in s.staged
    ensures Inherits(s, DoMakeTemporary(s, p, name, inode), id)
    ensures Inherits(s, DoOpenSource(s, p), id)
    ensures Inherits(s, DoCopyChunk(s, p, size), id)
    ensures Inherits(s, DoFlush(s, p), id)
  {
    SameCommits(s, id);
    hide Inv, IsTemporary, NextChunk, PlacedByAble, SomeAble;
  }

  lemma LinkInherits(s: State, p: int, id: Key)
    requires Inv(s) && id in s.staged
    ensures Inherits(s, DoLink(s, p), id)
  {
    if p in s.commits {
      assert CommitOk(s.names, s.files, s.staged, p, s.commits[p]);
    }
    hide Inv, ScannerAccepts, IsTemporary;
  }

  lemma FailInherits(s: State, p: int, id: Key)
    requires id in s.staged
    ensures Inherits(s, DoFail(s, p), id)
  {
    SameCommits(s, id);
    hide PlacedByAble, SomeAble;
  }

  lemma RemoveTemporaryInherits(s: State, p: int, id: Key)
    requires id in s.staged
    ensures Inherits(s, DoRemoveTemporary(s, p), id)
  {
    SameCommits(s, id);
    hide PlacedByAble, SomeAble;
  }

  lemma TidyingInherits(s: State, p: int, id: Key)
    requires id in s.staged
    ensures Inherits(s, DoRemoveSource(s, p), id)
    ensures Inherits(s, DoRemoveRecord(s, p), id)
  {
    SameCommits(s, id);
    hide PlacedByAble, SomeAble;
  }

  lemma LookInherits(s: State, p: int, other: Key, dir: Key, filename: string, id: Key)
    requires id in s.staged
    ensures Inherits(s, DoLook(s, p, other, dir, filename), id)
  {
    hide ValidFilename;
  }

  lemma UploadInherits(s: State, p: int, other: Key, inode: int, chunk: Bytes, id: Key)
    requires Inv(s) && id in s.staged
    ensures Inherits(s, DoOpen(s, p, other, inode), id)
    ensures Inherits(s, DoReceive(s, p, chunk), id)
    ensures Inherits(s, DoClose(s, p), id)
    ensures Inherits(s, DoReject(s, p), id)
    ensures Inherits(s, DoRecord(s, p), id)
  {
    SameCommits(s, id);
    if p in s.uploads {
      assert UploadOk(s.names, s.files, s.staged, p, s.uploads[p]);
    }
    assert id in s.used;
    hide Inv, CommitsDescend, PlacedByAble;
  }

  lemma DoInherits(s: State, step: Step, id: Key)
    requires Inv(s) && id in s.staged
    ensures Inherits(s, Do(s, step), id)
  {
    hide Inv, Inherits, DoOpen, DoReceive, DoClose, DoReject, DoRecord, DoLook, DoMakeTemporary, DoOpenSource;
    hide DoCopyChunk, DoFlush, DoLink, DoFail, DoRemoveTemporary, DoRemoveSource, DoRemoveRecord;
    match step
    case Open(p, other, inode) => UploadInherits(s, p, other, inode, [], id);
    case Receive(p, chunk) => UploadInherits(s, p, id, 0, chunk, id);
    case Close(p) => UploadInherits(s, p, id, 0, [], id);
    case Reject(p) => UploadInherits(s, p, id, 0, [], id);
    case Record(p) => UploadInherits(s, p, id, 0, [], id);
    case DropArchive(_) => DropsInherit(s, step, id);
    case DropRecord(_) => DropsInherit(s, step, id);
    case Crash => DropsInherit(s, step, id);
    case Look(p, other, dir, filename) => LookInherits(s, p, other, dir, filename, id);
    case MakeTemporary(p, name, inode) => CommitStepsInherit(s, p, 0, name, inode, id);
    case OpenSource(p) => CommitStepsInherit(s, p, 0, "", 0, id);
    case CopyChunk(p, size) => CommitStepsInherit(s, p, size, "", 0, id);
    case Flush(p) => CommitStepsInherit(s, p, 0, "", 0, id);
    case Link(p) => LinkInherits(s, p, id);
    case Fail(p) => FailInherits(s, p, id);
    case RemoveTemporary(p) => RemoveTemporaryInherits(s, p, id);
    case RemoveSource(p) => TidyingInherits(s, p, id);
    case RemoveRecord(p) => TidyingInherits(s, p, id);
  }

  lemma DropsInherit(s: State, step: Step, id: Key)
    requires id in s.staged && (step.DropArchive? || step.DropRecord? || step.Crash?)
    ensures Inherits(s, Do(s, step), id)
  {
    SameCommits(s, id);
    if !step.Crash? {
      hide CommitsDescend;
    }
    hide PlacedByAble;
  }

  lemma ComesFromAble(s: State, t: State, p: int, id: Key)
    requires Inv(s) && Inherits(s, t, id) && NamesSteady(s.names, t.names, t.placed)
    requires p in t.commits && Able(t.names, id, t.commits[p])
    ensures CanPlace(s, id)
  {
    var c := t.commits[p];
    assert Descends(s, p, c, id);
    if !(Staged(id) in s.names && id in s.records) {
      assert CommitOk(s.names, s.files, s.staged, p, s.commits[p]);
      assert c.target !in s.names;
      assert Able(s.names, id, s.commits[p]);
    }
  }

  lemma CouldAlready(s: State, step: Step, id: Key)
    requires Inv(s) && id in s.staged
    ensures CanPlace(Do(s, step), id) ==> CanPlace(s, id)
    ensures forall path :: Gains(s, Do(s, step), path, id) ==> CanPlace(s, id)
    ensures id in Do(s, step).staged
  {
    var t := Do(s, step);
    DoInherits(s, step, id);
    DoSteady(s, step);
    hide Do, Inv, Able, CommitsDescend, FilesSteady;
    if SomeAble(t.names, id, t.commits) {
      var p :| p in t.commits && Able(t.names, id, t.commits[p]);
      ComesFromAble(s, t, p, id);
    }
  }

  /** What a run can place or leave placeable could be placed before it. */
  lemma {:induction false} RunCouldAlready(s: State, steps: seq<Step>, id: Key)
    requires Inv(s) && id in s.staged
    ensures CanPlace(Run(s, steps), id) ==> CanPlace(s, id)
    ensures forall path :: Gains(s, Run(s, steps), path, id) ==> CanPlace(s, id)
    ensures id in Run(s, steps).staged
    decreases |steps|
  {
    if steps != [] {
      var (before, last) := (steps[..|steps| - 1], steps[|steps| - 1]);
      RunCouldAlready(s, before, id);
      RunKeeps(s, before);
      CouldAlready(Run(s, before), last, id);
      DoSteady(Run(s, before), last);
      GainsChain(s, Run(s, before), Run(s, steps), id);
      hide Do, Inv, CanPlace, Gains, Steady;
    }
  }

  lemma GainsChain(a: State, b: State, c: State, id: Key)
    requires PlacedSteady(b.placed, c.placed)
    ensures forall path :: Gains(a, c, path, id) ==> Gains(a, b, path, id) || Gains(b, c, path, id)
  {
  }

  // ---- With one of these, it can be placed -------------------------------------------------

  /** Some run places the upload under a new name and takes neither its archive nor its record. */
  ghost predicate Placeable(s: State, id: Key) {
    exists steps, path :: Gains(s, Run(s, steps), path, id) && Leaves(s, Run(s, steps), id)
  }

  ghost predicate Leaves(s: State, t: State, id: Key) {
    (Staged(id) in s.names ==> Staged(id) in t.names) && (id in s.records ==> id in t.records)
  }

  lemma {:induction false} RunFrom(s: State, step: Step, steps: seq<Step>)
    ensures Run(s, [step] + steps) == Run(Do(s, step), steps)
    decreases |steps|
  {
    if steps == [] {
      assert ([step] + steps)[..0] == [];
      assert Run(s, []) == s;
    } else {
      var before := steps[..|steps| - 1];
      RunFrom(s, step, before);
      assert ([step] + steps)[..|steps|] == [step] + before;
      hide Do;
    }
  }

  /** A step towards a placement. */
  lemma StepTowards(s: State, step: Step, id: Key)
    requires Placeable(Do(s, step), id) && Do(s, step).placed == s.placed && Leaves(s, Do(s, step), id)
    ensures Placeable(s, id)
  {
    hide Do, Run;
    var steps, path :| Gains(Do(s, step), Run(Do(s, step), steps), path, id)
      && Leaves(Do(s, step), Run(Do(s, step), steps), id);
    RunFrom(s, step, steps);
    assert Gains(s, Run(s, [step] + steps), path, id) && Leaves(s, Run(s, [step] + steps), id);
  }

  lemma LinkedPlaces(s: State, p: int, id: Key)
    requires Inv(s) && p in s.commits && s.commits[p].phase.Flushed? && Able(s.names, id, s.commits[p])
    ensures Placeable(s, id)
  {
    WereNamed(s, s.commits[p].target);
    hide Inv;
    assert Run(s, []) == s;
    assert [Link(p)][..0] == [];
    assert Run(s, [Link(p)]) == DoLink(s, p);
    assert Gains(s, DoLink(s, p), s.commits[p].target, id);
    assert Leaves(s, DoLink(s, p), id);
  }

  lemma CopiesAll(s: State, p: int)
    requires Inv(s) && p in s.commits && s.commits[p].phase.Copying?
    ensures CanCopy(s, p)
    ensures var phase := s.commits[p].phase;
      var after := DoCopyChunk(s, p, |s.files[phase.src].bytes|);
      after == s.(files := after.files) && CanCopy(after, p)
      && |after.files[phase.out].bytes| >= |after.files[phase.src].bytes|
  {
    assert CommitOk(s.names, s.files, s.staged, p, s.commits[p]);
    hide Inv, ScannerAccepts, IsTemporary;
  }

  lemma CopyingPlaces(s: State, p: int, id: Key)
    requires Inv(s) && p in s.commits && s.commits[p].phase.Copying? && Able(s.names, id, s.commits[p])
    ensures Placeable(s, id)
  {
    CopiesAll(s, p);
    var size := |s.files[s.commits[p].phase.src].bytes|;
    var copied := Do(s, CopyChunk(p, size));
    var flushed := Do(copied, Flush(p));
    DoKeeps(s, CopyChunk(p, size));
    DoKeeps(copied, Flush(p));
    hide Inv, DoCopyChunk, Placeable;
    LinkedPlaces(flushed, p, id);
    StepTowards(copied, Flush(p), id);
    StepTowards(s, CopyChunk(p, size), id);
  }

  lemma MadePlaces(s: State, p: int, id: Key)
    requires Inv(s) && p in s.commits && s.commits[p].phase.Made? && Able(s.names, id, s.commits[p])
    ensures Placeable(s, id)
  {
    DoKeeps(s, OpenSource(p));
    hide Inv, Placeable;
    CopyingPlaces(Do(s, OpenSource(p)), p, id);
    StepTowards(s, OpenSource(p), id);
  }

  // ---- There are always new names ----------------------------------------------------------

  function TemporaryName(n: nat): (name: string)
    ensures IsTemporary(name) && |name| >= n
  {
    TEMP_PREFIX + Letters(n) + TEMP_SUFFIX
  }

  lemma NewName(names: map<Path, int>) returns (n: nat)
    ensures forall path :: path in names && path.Media? ==> |path.name| < n && |path.dir.name| < n
  {
    var files := set path | path in names && path.Media? :: |path.name|;
    var dirs := set path | path in names && path.Media? :: |path.dir.name|;
    var file := Above(files);
    var dir := Above(dirs);
    n := file + dir;
    forall path | path in names && path.Media?
      ensures |path.name| < n && |path.dir.name| < n
    {
      assert |path.name| in files && |path.dir.name| in dirs;
    }
  }

  lemma LookedPlaces(s: State, p: int, id: Key)
    requires Inv(s) && p in s.commits && s.commits[p].phase.Looked? && Able(s.names, id, s.commits[p])
    ensures Placeable(s, id)
  {
    var n := NewName(s.names);
    var inode := Above(s.files.Keys);
    var step := MakeTemporary(p, TemporaryName(n), inode);
    assert CommitOk(s.names, s.files, s.staged, p, s.commits[p]);
    DoKeeps(s, step);
    hide Inv, Placeable, TemporaryName, IsTemporary, ScannerAccepts;
    assert Media(s.commits[p].target.dir, TemporaryName(n)) !in s.names;
    MadePlaces(Do(s, step), p, id);
    StepTowards(s, step, id);
  }

  lemma PlainFolds()
    ensures Folded("a.cbz") == "a.cbz"
  {
    assert forall i :: 0 <= i < 5 ==> Lower("a.cbz"[i]) == "a.cbz"[i];
    hide Lower, Folded;
  }

  lemma PlainStrips()
    ensures Strip("a.cbz") == "a.cbz"
  {
    assert !Space("a.cbz"[0]) && !Space("a.cbz"[4]);
    hide Space;
    assert StripLeft("a.cbz") == "a.cbz";
    assert StripRight("a.cbz") == "a.cbz";
  }

  lemma PlainName()
    ensures ValidFilename("a.cbz") == Some("a.cbz") && !IsTemporary("a.cbz")
  {
    PlainFolds();
    PlainStrips();
    hide Folded, Strip;
    assert "a.cbz"[1..] == SUFFIX;
    assert "a.cbz"[0] != TEMP_PREFIX[0];
  }

  lemma LookLooks(s: State, p: int, id: Key, dir: Key)
    requires Staged(id) in s.names && id in s.records && p !in s.commits && Media(dir, "a.cbz") !in s.names
    ensures Do(s, Look(p, id, dir, "a.cbz")) == s.(commits := s.commits[p := Commit(id, Media(dir, "a.cbz"), Looked)])
  {
    PlainName();
    hide ValidFilename;
  }

  lemma RecordedPlaces(s: State, id: Key)
    requires Inv(s) && Staged(id) in s.names && id in s.records
    ensures Placeable(s, id)
  {
    var n := NewName(s.names);
    var p := Above(s.commits.Keys);
    var step := Look(p, id, Key(Letters(n)), "a.cbz");
    assert Media(Key(Letters(n)), "a.cbz") !in s.names;
    LookLooks(s, p, id, Key(Letters(n)));
    DoKeeps(s, step);
    hide Inv, Placeable, Letters, Do;
    LookedPlaces(Do(s, step), p, id);
    StepTowards(s, step, id);
  }

  lemma CanBePlaced(s: State, id: Key)
    requires Inv(s) && CanPlace(s, id)
    ensures Placeable(s, id)
  {
    hide Inv, Placeable;
    if Staged(id) in s.names && id in s.records {
      RecordedPlaces(s, id);
    } else {
      var p :| p in s.commits && Able(s.names, id, s.commits[p]);
      match s.commits[p].phase
      case Looked => LookedPlaces(s, p, id);
      case Made(_, _) => MadePlaces(s, p, id);
      case Copying(_, _, _) => CopyingPlaces(s, p, id);
      case Flushed(_, _) => LinkedPlaces(s, p, id);
    }
  }

  /** A staged upload can be placed under one more name if and only if its archive is there together with its
      record or a commit that has not opened it yet, or a commit of it is copying or about to link; in each
      commit's case towards a name still free. */
  lemma PlaceableExactly(s: State, id: Key)
    requires Inv(s) && id in s.staged
    ensures (exists steps, path :: Gains(s, Run(s, steps), path, id)) <==> CanPlace(s, id)
  {
    if CanPlace(s, id) {
      CanBePlaced(s, id);
    }
    hide Inv, CanPlace;
    if steps, path :| Gains(s, Run(s, steps), path, id) {
      RunCouldAlready(s, steps, id);
    }
  }

  // ---- Placed twice, and placed once -------------------------------------------------------

  lemma {:induction false} RunOn(s: State, steps: seq<Step>, more: seq<Step>)
    ensures Run(s, steps + more) == Run(Run(s, steps), more)
    decreases |more|
  {
    if more == [] {
      assert steps + more == steps;
    } else {
      RunOn(s, steps, more[..|more| - 1]);
      assert (steps + more)[..|steps + more| - 1] == steps + more[..|more| - 1];
      hide Do;
    }
  }

  lemma UploadRecorded(s: State) returns (id: Key, steps: seq<Step>)
    requires Initial(s)
    ensures Staged(id) in Run(s, steps).names && id in Run(s, steps).records
  {
    var inode := Above(s.files.Keys);
    id := NewKey(s.used);
    steps := [Open(0, id, inode), Close(0), Record(0)];
    var storing := Do(s, steps[0]);
    assert 0 in storing.uploads && storing.uploads[0] == Storing(id, inode) && inode in storing.files;
    var closed := Do(storing, steps[1]);
    assert closed.uploads[0] == Stored(id, inode) && closed.files == storing.files;
    var recorded := Do(closed, steps[2]);
    assert Staged(id) in recorded.names && id in recorded.records;
    assert Run(s, []) == s;
    assert steps[..1] == [] + [steps[0]] && steps[..2] == steps[..1] + [steps[1]] && steps == steps[..2] + [steps[2]];
    assert Run(s, steps[..1]) == storing && Run(s, steps[..2]) == closed;
    hide Do;
  }

  lemma RunCrash(s: State, steps: seq<Step>)
    ensures var (before, after) := (Run(s, steps), Run(s, steps + [Crash]));
      after.names == before.names && after.records == before.records && after.placed == before.placed
  {
    assert (steps + [Crash])[..|steps|] == steps;
  }

  /** A placement that still leaves the staged pair when the process dies. */
  lemma PlacedThenCrashed(s: State) returns (id: Key, steps: seq<Step>, path: Path)
    requires Initial(s)
    ensures Gains(s, Run(s, steps), path, id)
    ensures Inv(Run(s, steps + [Crash])) && CanPlace(Run(s, steps + [Crash]), id)
    ensures Run(s, steps + [Crash]).placed == Run(s, steps).placed
  {
    InitialInv(s);
    var upload, more;
    id, upload := UploadRecorded(s);
    RunKeeps(s, upload);
    CanBePlaced(Run(s, upload), id);
    hide Inv, Run;
    more, path :| Gains(Run(s, upload), Run(Run(s, upload), more), path, id)
      && Leaves(Run(s, upload), Run(Run(s, upload), more), id);
    steps := upload + more;
    RunOn(s, upload, more);
    RunKeeps(s, steps + [Crash]);
    RunCrash(s, steps);
  }

  /** One upload under two names, from every library and with one commit at a time: a crash between the link
      and the removal of the staged pair leaves the upload to be committed again under another name. */
  lemma PlacedTwice(s: State)
    requires Initial(s)
    ensures exists first, second, a, b, id ::
      && Gains(s, Run(s, first), a, id)
      && Gains(Run(s, first + [Crash]), Run(s, first + [Crash] + second), b, id)
      && a in Run(s, first + [Crash] + second).placed && Run(s, first + [Crash] + second).placed[a] == id
  {
    var id, first, a := PlacedThenCrashed(s);
    var crashed := Run(s, first + [Crash]);
    CanBePlaced(crashed, id);
    hide Inv, CanPlace;
    var second, b :| Gains(crashed, Run(crashed, second), b, id) && Leaves(crashed, Run(crashed, second), id);
    RunOn(s, first + [Crash], second);
    RunSteady(crashed, second);
    hide Run, NamesSteady, FilesSteady;
    assert Gains(s, Run(s, first), a, id);
    assert Gains(Run(s, first + [Crash]), Run(s, first + [Crash] + second), b, id);
  }

  /** A commit that nothing disturbs, with no other commit of the upload in progress, is the upload's last: no
      run that follows places it again. */
  lemma PlacedForGood(s: State, p: int, id: Key, dir: Key, filename: string, name: string, inode: int,
    later: seq<Step>, path: Path)
    requires Inv(s) && p !in s.commits && id in s.records && Staged(id) in s.names && ValidFilename(filename).Some?
    requires Media(dir, ValidFilename(filename).value) !in s.names
    requires IsTemporary(name) && Media(dir, name) !in s.names && inode !in s.files
    requires forall q :: q in s.commits ==> s.commits[q].id != id
    requires id in s.staged
    ensures var placed := CommitAlone(s, p, id, dir, filename, name, inode, |s.staged[id]|);
      path in Run(placed, later).placed && Run(placed, later).placed[path] == id ==>
        path == Media(dir, ValidFilename(filename).value) || path in s.placed
  {
    var placed := CommitAlone(s, p, id, dir, filename, name, inode, |s.staged[id]|);
    UndisturbedCommitPlaces(s, p, id, dir, filename, name, inode);
    CommitAloneKeeps(s, p, id, dir, filename, name, inode, |s.staged[id]|);
    assert Staged(id) !in placed.names && id !in placed.records && placed.commits == s.commits;
    assert !CanPlace(placed, id);
    PlaceableExactly(placed, id);
    hide CommitAlone, Inv, CanPlace, ValidFilename, IsTemporary;
    assert !Gains(placed, Run(placed, later), path, id);
    hide Run;
  }

  lemma CommitAloneKeeps(s: State, p: int, id: Key, dir: Key, filename: string, name: string, inode: int, size: nat)
    requires Inv(s)
    ensures Inv(CommitAlone(s, p, id, dir, filename, name, inode, size))
  {
    hide Inv, DoLook, DoMakeTemporary, DoOpenSource, DoCopyChunk, DoFlush, DoLink, DoRemoveTemporary, DoRemoveSource;
    hide DoRemoveRecord;
    var looked := DoLook(s, p, id, dir, filename);
    LookKeeps(s, p, id, dir, filename);
    MakeTemporaryKeeps(looked, p, name, inode);
    var made := DoMakeTemporary(looked, p, name, inode);
    OpenSourceKeeps(made, p);
    var storing := DoOpenSource(made, p);
    CopyChunkKeeps(storing, p, size);
    var copied := DoCopyChunk(storing, p, size);
    FlushKeeps(copied, p);
    LinkKeeps(DoFlush(copied, p), p);
    var linked := DoLink(DoFlush(copied, p), p);
    RemoveTemporaryKeeps(linked, p);
    RemoveSourceKeeps(DoRemoveTemporary(linked, p), p);
    RemoveRecordKeeps(DoRemoveSource(DoRemoveTemporary(linked, p), p), p);
  }
}
