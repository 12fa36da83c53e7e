/** The byte budget of a cache directory (`DiskCacheBudget` in `archives.py`). */
module DiskCache {
  import opened Common

  datatype File = File(size: nat, modified: int)

  function Sizes(files: map<Key, File>): map<Key, nat> {
    map path | path in files :: files[path].size
  }

  /** What `_evict` counts: the files there are, and the one just written even if it is already gone. */
  function Counted(files: map<Key, File>, keep: Key): map<Key, nat> {
    if keep in files then Sizes(files) else Sizes(files)[keep := 0]
  }

  /** `gone` have been deleted from `before`: the oldest, apart from `keep`. */
  ghost predicate OldestGone(before: map<Key, File>, after: map<Key, File>, keep: Key) {
    && (forall path :: path in after ==> path in before && after[path] == before[path])
    && (keep in before ==> keep in after)
    && (forall gone, stays :: gone in before && gone !in after && stays in after && stays != keep ==>
      before[gone].modified <= before[stays].modified)
  }

  /** Nothing was deleted once the total was within the limit. */
  ghost predicate NoneInVain(before: map<Key, File>, after: map<Key, File>, keep: Key, limit: nat) {
    after != before ==>
      exists last :: last in before && last !in after && Sum(Counted(after, keep)) + before[last].size > limit
  }

  lemma CountedLess(files: map<Key, File>, keep: Key, path: Key)
    requires path in files && path != keep
    ensures Sum(Counted(files - {path}, keep)) == Sum(Counted(files, keep)) - files[path].size
  {
    var (more, less) := (Counted(files, keep), Counted(files - {path}, keep));
    SumUpdate(more, path, 0);
    assert less == more - {path};
  }

  lemma OneMoreGone(before: map<Key, File>, files: map<Key, File>, keep: Key, oldest: Key, limit: nat)
    requires OldestGone(before, files, keep) && oldest in files && oldest != keep
    requires forall path :: path in files && path != keep ==> files[oldest].modified <= files[path].modified
    requires Sum(Counted(files, keep)) > limit
    ensures OldestGone(before, files - {oldest}, keep) && NoneInVain(before, files - {oldest}, keep, limit)
  {
    var after := files - {oldest};
    CountedLess(files, keep, oldest);
    forall gone, stays | gone in before && gone !in after && stays in after && stays != keep
      ensures before[gone].modified <= before[stays].modified
    {
      assert gone == oldest || gone !in files;
    }
    assert oldest in before && oldest !in after && Sum(Counted(after, keep)) + before[oldest].size > limit;
  }

  lemma {:induction false} OldestOf(files: map<Key, File>, paths: set<Key>) returns (oldest: Key)
    requires paths != {} && forall path :: path in paths ==> path in files
    ensures oldest in paths && forall path :: path in paths ==> files[oldest].modified <= files[path].modified
    decreases |paths|
  {
    oldest := Pick(paths);
    var others := paths - {oldest};
    if others != {} {
      var other := OldestOf(files, others);
      oldest := if files[other].modified < files[oldest].modified then other else oldest;
    }
  }

  class DiskCacheBudget {
    const limit: nat
    var files: map<Key, File>
    var known: Option<map<Key, nat>>

    constructor (limit: nat, files: map<Key, File>)
      ensures this.limit == limit && this.files == files && known.None?
    {
      this.limit, this.files, known := limit, files, None;
    }

    method Total(sizes: map<Key, nat>) returns (total: nat)
      ensures total == Sum(sizes)
    {
      total := 0;
      var left := sizes;
      while left != map[]
        invariant total + Sum(left) == Sum(sizes)
        decreases |left|
      {
        ghost var some := Pick(left.Keys);
        var path :| path in left;
        SumUpdate(left, path, 0);
        total := total + left[path];
        assert (left - {path}).Keys == left.Keys - {path};
        left := left - {path};
      }
    }

    /** Note a file just written; if that takes the directory over its limit, delete the oldest others until it
        is not, or none is left. */
    method Added(newPath: Key, size: nat)
      modifies this`files, this`known
      ensures known.Some?
      ensures var seen := (if old(known).None? then Sizes(old(files)) else old(known).value)[newPath := size];
        if Sum(seen) <= limit then known == Some(seen) && files == old(files)
        else
          && known == Some(Counted(files, newPath))
          && (Sum(known.value) <= limit || known.value.Keys == {newPath})
      ensures OldestGone(old(files), files, newPath) && NoneInVain(old(files), files, newPath, limit)
    {
      var sizes := if known.None? then Sizes(files) else known.value;
      sizes := sizes[newPath := size];
      known := Some(sizes);
      var total := Total(sizes);
      if total > limit {
        Evict(newPath);
      }
    }

    method Oldest(paths: set<Key>) returns (oldest: Key)
      requires paths != {} && paths <= files.Keys
      ensures oldest in paths && forall path :: path in paths ==> files[oldest].modified <= files[path].modified
    {
      ghost var some := OldestOf(files, paths);
      oldest :| oldest in paths && forall path :: path in paths ==> files[oldest].modified <= files[path].modified;
    }

    method Evict(keep: Key)
      modifies this`files, this`known
      ensures known == Some(Counted(files, keep))
      ensures Sum(Counted(files, keep)) <= limit || Counted(files, keep).Keys == {keep}
      ensures OldestGone(old(files), files, keep) && NoneInVain(old(files), files, keep, limit)
    {
      ghost var before := files;
      assert OldestGone(files, files, keep) && NoneInVain(files, files, keep, limit);
      var total := Total(Counted(files, keep));
      var candidates := files.Keys - {keep};
      hide OldestGone, NoneInVain, Counted, Sum;
      while candidates != {} && total > limit
        invariant candidates == files.Keys - {keep} && total == Sum(Counted(files, keep))
        invariant OldestGone(before, files, keep) && NoneInVain(before, files, keep, limit)
        decreases candidates
      {
        var path := Oldest(candidates);
        CountedLess(files, keep, path);
        OneMoreGone(before, files, keep, path, limit);
        total := total - files[path].size;
        files := files - {path};
        candidates := candidates - {path};
      }
      known := Some(Counted(files, keep));
      if candidates == {} {
        OnlyKept(files, keep);
      }
    }
  }

  lemma OnlyKept(files: map<Key, File>, keep: Key)
    requires files.Keys - {keep} == {}
    ensures Counted(files, keep).Keys == {keep}
  {
  }
}
