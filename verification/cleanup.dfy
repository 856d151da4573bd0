/** `cleanupFiles(req)` over an abstract upload directory. The directory is the set of paths of
    the files stored in it. `fs.unlink` is taken to complete before the next call (the handlers
    do not wait for it), and it fails when the file is gone or when its removal is refused
    (the paths in `denied`); a failure is only logged. */
module Cleanup {
  import opened Wrappers
  import opened Upload

  /** The result of a cleanup: the paths left in the directory and the ones logged as failed. */
  datatype Sweep = Sweep(remaining: set<string>, failed: seq<string>)

  function Elements(paths: seq<string>): set<string> {
    set p | p in paths
  }

  /** Unlinking `paths` one after the other, starting from the directory `present`. */
  function UnlinkAll(present: set<string>, denied: set<string>, paths: seq<string>): (r: Sweep)
    ensures r.remaining == present - (Elements(paths) - denied)
    ensures forall p :: p in r.failed ==> p in paths
    ensures |r.failed| <= |paths|
  {
    if paths == [] then Sweep(present, [])
    else
      var before := UnlinkAll(present, denied, paths[..|paths| - 1]);
      var p := paths[|paths| - 1];
      assert paths == paths[..|paths| - 1] + [p];
      if p in before.remaining && p !in denied then Sweep(before.remaining - {p}, before.failed)
      else Sweep(before.remaining, before.failed + [p])
  }

  /** The effect of `cleanupFiles(req)`: nothing when `req.files` is undefined, otherwise an
      attempt on every stored file. */
  function AfterCleanup(present: set<string>, uploaded: Option<UploadedFiles>, denied: set<string>): (r: Sweep)
    ensures uploaded.None? ==> r == Sweep(present, [])
    ensures uploaded.Some? ==>
      r.remaining == present - (Elements(PathsOf(AllFiles(uploaded.value))) - denied)
  {
    if uploaded.None? then Sweep(present, [])
    else UnlinkAll(present, denied, PathsOf(AllFiles(uploaded.value)))
  }

  /** Files the request did not upload are never touched, and every uploaded file whose removal
      is not refused is gone afterwards. */
  lemma CleanupRemovesOnlyUploads(present: set<string>, uploaded: UploadedFiles, denied: set<string>)
    ensures var r := AfterCleanup(present, Some(uploaded), denied);
      && (forall p :: p in present && p !in PathsOf(AllFiles(uploaded)) ==> p in r.remaining)
      && (forall f :: f in AllFiles(uploaded) && f.path !in denied ==> f.path !in r.remaining)
  {
    var r := AfterCleanup(present, Some(uploaded), denied);
    forall f | f in AllFiles(uploaded) && f.path !in denied ensures f.path !in r.remaining {
      var i :| 0 <= i < |AllFiles(uploaded)| && AllFiles(uploaded)[i] == f;
      assert PathsOf(AllFiles(uploaded))[i] == f.path;
    }
  }

  /** Running the cleanup a second time leaves the directory as the first run left it. */
  lemma CleanupIdempotent(present: set<string>, uploaded: Option<UploadedFiles>, denied: set<string>)
    ensures var once := AfterCleanup(present, uploaded, denied).remaining;
      AfterCleanup(once, uploaded, denied).remaining == once
  {
  }

  predicate Distinct(paths: seq<string>) {
    forall i, j :: 0 <= i < j < |paths| ==> paths[i] != paths[j]
  }

  /** With distinct paths, a path is logged exactly when its file was already gone or its removal
      was refused; in particular nothing is logged when every file is there and removable. */
  lemma {:induction false} FailuresAreMissingOrDenied(present: set<string>, denied: set<string>, paths: seq<string>)
    requires Distinct(paths)
    ensures forall p :: p in UnlinkAll(present, denied, paths).failed
                    <==> p in paths && (p !in present || p in denied)
  {
    if paths != [] {
      var init, p := paths[..|paths| - 1], paths[|paths| - 1];
      assert paths == init + [p];
      FailuresAreMissingOrDenied(present, denied, init);
      assert p !in init;
    }
  }

  /** The upload directory: the files stored in it and the cleanup warnings logged so far. */
  class UploadDir {
    var files: set<string>
    var warnings: seq<string>

    constructor (files: set<string>)
      ensures this.files == files && warnings == []
    {
      this.files := files;
      warnings := [];
    }

    /** `fs.unlink(path, callback)`: `ok` is what the callback learns. */
    method Unlink(path: string, denied: set<string>) returns (ok: bool)
      modifies this`files
      ensures ok <==> path in old(files) && path !in denied
      ensures files == if ok then old(files) - {path} else old(files)
    {
      ok := path in files && path !in denied;
      if ok {
        files := files - {path};
      }
    }

    /** `cleanupFiles(req)`: no-op without `req.files`; otherwise unlinks every stored file of
        every field, logging each failure and going on with the rest. */
    method CleanupFiles(uploaded: Option<UploadedFiles>, denied: set<string>)
      modifies this
      ensures files == AfterCleanup(old(files), uploaded, denied).remaining
      ensures warnings == old(warnings) + AfterCleanup(old(files), uploaded, denied).failed
    {
      if uploaded.None? {
        return;
      }
      var all := AllFiles(uploaded.value);
      ghost var paths := PathsOf(all);
      var i := 0;
      while i < |all|
        invariant 0 <= i <= |all|
        invariant files == UnlinkAll(old(files), denied, paths[..i]).remaining
        invariant warnings == old(warnings) + UnlinkAll(old(files), denied, paths[..i]).failed
      {
        var file := all[i];
        var ok := Unlink(file.path, denied);
        if !ok {
          warnings := warnings + [file.path];
        }
        assert paths[..i + 1][..i] == paths[..i];
        i := i + 1;
      }
      assert paths[..i] == paths;
    }
  }
}
