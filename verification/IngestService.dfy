/** Committing, discarding and sweeping as the service runs them (`librarian.py`), one at a time. */
module IngestService {
  import opened Common
  import opened FileNames
  import opened PlacementState

  datatype Outcome = Placed(path: Path) | NotFound | BadName | Conflict

  /** Where an upload is to go: its series or library is gone, disabled or out of the token's reach; its storage
      cannot be resolved; or a directory. */
  datatype Destination = Gone | Unresolved | At(dir: Key)

  /** The errors of the file system: nothing can be created there; the copy fails; or all is linked but the
      directory cannot be synced or the staged archive not removed. */
  datatype Fault = NoFault | Unwritable | CopyFails | TidyingFails

  /** Nothing keeps the commit from its link but an error of the file system. */
  ghost predicate CanLink(names: map<Path, int>, records: set<Key>, id: Key, destination: Destination,
    filename: string)
  {
    && id in records
    && destination.At?
    && ValidFilename(filename).Some?
    && Staged(id) in names
    && Media(destination.dir, ValidFilename(filename).value) !in names
  }

  /** `records` and `modified` give the modification times of the sidecars and of the staged archives. */
  class Service {
    var names: map<Path, int>
    var files: map<int, File>
    var records: map<Key, real>
    var modified: map<Key, real>

    constructor (names: map<Path, int>, files: map<int, File>)
      ensures this.names == names && this.files == files && records == map[] && modified == map[]
    {
      this.names, this.files, records, modified := names, files, map[], map[];
    }

    /** `shutil.copyfileobj` into a file just created, in `chunk`-sized reads. */
    method CopyInto(archive: int, inode: int, chunk: nat)
      requires chunk > 0 && archive in files && inode in files && archive != inode && files[inode].bytes == []
      modifies this`files
      ensures files == old(files)[inode := old(files)[inode].(bytes := old(files)[archive].bytes)]
    {
      ghost var before := files;
      var output, source := files[inode], files[archive].bytes;
      while |output.bytes| < |source|
        invariant output.bytes <= source && output == before[inode].(bytes := output.bytes)
        invariant files == before[inode := output]
        decreases |source| - |output.bytes|
      {
        var next := NextChunk(source, |output.bytes|, chunk);
        assert next != [] && next == source[|output.bytes|..][..|next|];
        output := Append(output, next);
        files := files[inode := output];
      }
      assert output.bytes == source;
    }

    /** `_place`: copy to a temporary name, sync, link, and tidy up. The name the file appears under is never
        one of an unfinished file, and a taken name is left alone. An error after the link leaves the file placed
        and the staged archive where it was. */
    method Place(source: Path, target: Path, temporary: Path, inode: int, fault: Fault) returns (placed: bool)
      requires source in names && names[source] in files
      requires temporary !in names && inode !in files && temporary != target && source != target
      modifies this`names, this`files
      ensures placed == (target !in old(names) && fault.NoFault?)
      ensures names ==
        if placed then old(names)[target := inode] - {source}
        else if target !in old(names) && fault.TidyingFails? then old(names)[target := inode]
        else old(names)
      ensures forall i :: i in old(files) ==> i in files && files[i] == old(files)[i]
      ensures fault.NoFault? || fault.TidyingFails? ==>
        files == old(files)[inode := File(old(files)[old(names)[source]].bytes, true, Nobody)]
    {
      if fault.Unwritable? {
        return false;
      }
      var archive := names[source];
      names := names[temporary := inode];
      files := files[inode := File([], false, Committer(0))];
      if fault.CopyFails? {
        names := names - {temporary};
        return false;
      }
      CopyInto(archive, inode, 65536);
      files := files[inode := File(files[inode].bytes, true, Nobody)];
      placed := target !in names;
      if placed {
        names := names[target := inode];
      }
      names := names - {temporary};
      if fault.TidyingFails? {
        return false;
      }
      if placed {
        names := names - {source};
      }
    }

    /** The whole commit, in the order the service checks: every way of failing leaves every name, file and record
        as it was, except that an error after the link leaves the upload both placed and staged; and success adds
        exactly the target, complete and synced, and takes the staged pair away. */
    method Commit(id: Key, destination: Destination, filename: string, temporary: Path, inode: int, fault: Fault)
      returns (outcome: Outcome)
      requires Staged(id) in names ==> names[Staged(id)] in files
      requires temporary.Media? && temporary !in names && inode !in files && IsTemporary(temporary.name)
      modifies this`names, this`files, this`records
      ensures outcome.NotFound? <==>
        || id !in old(records)
        || destination.Gone?
        || (ValidFilename(filename).Some? && destination.At? && Staged(id) !in old(names))
      ensures outcome.BadName? <==> id in old(records) && !destination.Gone? && ValidFilename(filename).None?
      ensures outcome.Placed? <==> CanLink(old(names), old(records).Keys, id, destination, filename) && fault.NoFault?
      ensures outcome.Placed? ==> outcome.path == Media(destination.dir, ValidFilename(filename).value)
      ensures records == if outcome.Placed? then old(records) - {id} else old(records)
      ensures names ==
        if !CanLink(old(names), old(records).Keys, id, destination, filename) || fault.Unwritable? || fault.CopyFails?
        then old(names)
        else
          old(names)[Media(destination.dir, ValidFilename(filename).value) := inode]
          - if outcome.Placed? then {Staged(id)} else {}
      ensures CanLink(old(names), old(records).Keys, id, destination, filename) && names != old(names) ==>
        files == old(files)[inode := File(old(files)[old(names)[Staged(id)]].bytes, true, Nobody)]
      ensures forall i :: i in old(files) ==> i in files && files[i] == old(files)[i]
    {
      hide ValidFilename, IsTemporary, ScannerAccepts;
      if id !in records || destination.Gone? {
        return NotFound;
      }
      var cleaned := ValidFilename(filename);
      if cleaned.None? {
        return BadName;
      }
      if destination.Unresolved? {
        return Conflict;
      }
      var target := Media(destination.dir, cleaned.value);
      if Staged(id) !in names {
        return NotFound;
      }
      if target in names {
        return Conflict;
      }
      ValidFilenameSound(filename);
      var placed := Place(Staged(id), target, temporary, inode, fault);
      if !placed {
        return Conflict;
      }
      records := records - {id};
      return Placed(target);
    }

    method Discard(id: Key) returns (found: bool)
      modifies this`names, this`records
      ensures found == (id in old(records))
      ensures names == if found then old(names) - {Staged(id)} else old(names)
      ensures records == old(records) - {id}
    {
      if id !in records {
        return false;
      }
      names := names - {Staged(id)};
      records := records - {id};
      return true;
    }

    method SweepPairs(cutoff: real)
      modifies this`names, this`records
      ensures records == Unexpired(old(records), cutoff)
      ensures names ==
        map path | path in old(names) && !ExpiredPair(path, old(records), old(records).Keys, cutoff) :: old(names)[path]
    {
      ghost var all, before := records, names;
      var sidecars := records.Keys;
      while sidecars != {}
        invariant sidecars <= records.Keys && sidecars <= all.Keys
        invariant records == map id | id in all && (id in sidecars || all[id] > cutoff) :: all[id]
        invariant names ==
          map path | path in before && !ExpiredPair(path, all, all.Keys - sidecars, cutoff) :: before[path]
        decreases |sidecars|
      {
        ghost var some := Pick(sidecars);
        var id :| id in sidecars;
        sidecars := sidecars - {id};
        if records[id] <= cutoff {
          names := names - {Staged(id)};
          records := records - {id};
        }
      }
    }

    method SweepOrphans(cutoff: real)
      modifies this`names
      ensures names ==
        map path | path in old(names) && !OldOrphan(path, records, modified, {}, cutoff) :: old(names)[path]
    {
      ghost var before := names;
      var archives := set id | id in modified && Staged(id) in names;
      assert forall path :: path in names ==> !OldOrphan(path, records, modified, archives, cutoff);
      while archives != {}
        invariant archives <= modified.Keys
        invariant names ==
          map path | path in before && !OldOrphan(path, records, modified, archives, cutoff) :: before[path]
        decreases |archives|
      {
        ghost var some := Pick(archives);
        var id :| id in archives;
        archives := archives - {id};
        if modified[id] <= cutoff && id !in records {
          names := names - {Staged(id)};
        }
      }
    }

    /** `_sweep_expired`: the pairs past their time go, and so does an old archive without a record; nothing
        else does. */
    method SweepExpired(cutoff: real)
      modifies this`names, this`records
      ensures records == Unexpired(old(records), cutoff)
      ensures names == map path | path in old(names) && !Swept(path, old(records), modified, cutoff) :: old(names)[path]
    {
      SweepPairs(cutoff);
      SweepOrphans(cutoff);
    }
  }

  function Unexpired(records: map<Key, real>, cutoff: real): map<Key, real> {
    map id | id in records && records[id] > cutoff :: records[id]
  }

  predicate Swept(path: Path, records: map<Key, real>, modified: map<Key, real>, cutoff: real) {
    && path.Staged?
    && if path.id in records then records[path.id] <= cutoff else path.id in modified && modified[path.id] <= cutoff
  }

  /** An archive whose record, among those looked at, is past its time. */
  ghost predicate ExpiredPair(path: Path, records: map<Key, real>, done: set<Key>, cutoff: real) {
    path.Staged? && path.id in done && path.id in records && records[path.id] <= cutoff
  }

  /** An old archive without a record, once all but `todo` have been looked at. */
  ghost predicate OldOrphan(path: Path, records: map<Key, real>, modified: map<Key, real>, todo: set<Key>,
    cutoff: real)
  {
    path.Staged? && path.id !in todo && path.id in modified && modified[path.id] <= cutoff && path.id !in records
  }
}
