/**
  Seeding a repair workspace from the manifest of an earlier attempt.  Seeding may be interrupted
  between any two of its file operations and started over any number of times.
*/
module RefinementSeeding {
  import opened Wrappers
  import opened Utf8
  import opened Paths
  import opened FileTree
  import opened LineEndings
  import opened Manifest
  import opened Overlay
  import E = Editor

  // One prior file: its base digest is checked against the bare base, then it is written or deleted
  // in the overlay with whatever digest is current there.
  function SeedFile(w: Workspace, file: ChangedFile): Outcome<Workspace>
    requires file.action != Action.Delete ==> file.resultContent.Some?
  {
    var original := Read(Fresh(w.base, w.maxFileBytes), file.path, 0);
    var current := Read(w, file.path, 0);
    if original.Failed? || Expected(original) != file.baseDigest || current.Failed? then Refused
    else if file.action == Action.Delete then
      if current.NotExist? then Ok(w) else Overlay.Delete(w, file.path, Expected(current))
    else
      match Write(w, file.path, file.resultContent.value, Expected(current))
      case Refused => Refused
      case Ok(r) => Ok(r.workspace)
  }

  function Expected(r: ReadResult): Digest
  {
    if r.Found? then Sha256(r.content) else AbsentDigest
  }

  function Seed(w: Workspace, files: seq<ChangedFile>): Outcome<Workspace>
    requires HasResults(files)
    decreases |files|
  {
    if files == [] then Ok(w)
    else
      match SeedFile(w, files[0])
      case Refused => Refused
      case Ok(next) => Seed(next, files[1..])
  }

  // A file whose seeding stopped between its two file operations.
  function HalfSeeded(w: Workspace, file: ChangedFile): Workspace
    requires file.action != Action.Delete ==> file.resultContent.Some?
  {
    if SeedFile(w, file).Refused? then w
    else if file.action == Action.Delete then
      (if Read(w, file.path, 0).NotExist? then w else RemoveCopy(w, file.path))
    else
      match Write(w, file.path, file.resultContent.value, Expected(Read(w, file.path, 0)))
      case Refused => w
      case Ok(r) =>
        (match WriteFile(w, file.path, r.content)
         case Refused => w
         case Ok(half) => half)
  }

  // The states an interrupted seeding can leave.
  ghost predicate Interrupted(w: Workspace, files: seq<ChangedFile>, left: Workspace)
    requires HasResults(files)
    decreases |files|
  {
    || left == w
    || (files != [] &&
        (left == HalfSeeded(w, files[0]) ||
         (SeedFile(w, files[0]).Ok? && Interrupted(SeedFile(w, files[0]).value, files[1..], left))))
  }

  // The ending a seeded file gets: that of the base file, LF for a new one.
  function BaseEnding(base: Tree, path: Path): Detection
  {
    if path in base.files then Detect(base.files[path]) else Consistent(Lf)
  }

  // The file's place in the seeded workspace.
  ghost predicate Placed(w: Workspace, file: ChangedFile)
    requires file.action != Action.Delete ==> file.resultContent.Some?
  {
    if file.action == Action.Delete then file.path in w.tombstones
    else
      && BaseEnding(w.base, file.path).Consistent?
      && Get(w.overlay.files, file.path)
         == Some(Stored(file.resultContent.value, BaseEnding(w.base, file.path).ending))
  }

  // Part of the way to the finished workspace.
  ghost predicate PartOf(w: Workspace, whole: Workspace)
  {
    && w.base == whole.base && w.maxFileBytes == whole.maxFileBytes
    && (forall p | p in w.overlay.files :: Get(whole.overlay.files, p) == Some(w.overlay.files[p]))
    && w.overlay.dirs <= whole.overlay.dirs && w.tombstones <= whole.tombstones
  }

  // Writing a seeded text again gives the same bytes.
  lemma StoredTwice(content: Bytes, ending: Ending)
    ensures Detect(Stored(content, ending)).Consistent?
    ensures Stored(content, Detect(Stored(content, ending)).ending) == Stored(content, ending)
  {
    StoredIsConsistent(content, ending);
    var text := Normalize(content);
    if LF !in text {
      RenderWithoutBreaks(text);
    }
  }

  lemma {:induction false} RenderWithoutBreaks(text: Bytes)
    requires LF !in text
    ensures ReplaceAll(text, [LF], CRLF) == text
    decreases |text|
  {
    if |text| > 0 {
      RenderWithoutBreaks(text[1..]);
      assert text[..1] == [text[0]];
      assert text == [text[0]] + text[1..];
    }
  }

  // The stored bytes are the prior result itself exactly when that result is consistent and, if it
  // has line breaks at all, has the ending of the base file.
  lemma StoredUnchanged(content: Bytes, ending: Ending)
    ensures Stored(content, ending) == content <==>
      Detect(content).Consistent? && (LF in Normalize(content) ==> Detect(content).ending == ending)
  {
    StoredIsConsistent(content, ending);
    if Detect(content).Consistent? {
      StoredRoundTrip(content);
      if LF !in Normalize(content) {
        RenderWithoutBreaks(Normalize(content));
      }
    }
  }

  // From any valid part of the finished workspace, seeding one of its files goes through, stays a
  // part of it, and puts the file in place.
  lemma ReplayFile(w: Workspace, whole: Workspace, file: ChangedFile)
    requires file.action != Action.Delete ==> file.resultContent.Some?
    requires ValidWorkspace(w) && ValidWorkspace(whole) && Apart(whole) && PartOf(w, whole)
    requires Placed(whole, file) && Expected(Read(Fresh(w.base, w.maxFileBytes), file.path, 0)) == file.baseDigest
    ensures SeedFile(w, file).Ok?
    ensures var next := SeedFile(w, file).value;
      ValidWorkspace(next) && PartOf(w, next) && PartOf(next, whole) && Placed(next, file)
    ensures ValidWorkspace(HalfSeeded(w, file)) && PartOf(HalfSeeded(w, file), whole)
  {
    PlacedIsFree(w, whole, file);
    ReadRefines(w, file.path, 0);
    ReadRefines(Fresh(w.base, w.maxFileBytes), file.path, 0);
    if file.action == Action.Delete {
      ReplayDelete(w, whole, file.path);
    } else {
      ReplayWrite(w, whole, file);
    }
  }

  lemma PlacedIsFree(w: Workspace, whole: Workspace, file: ChangedFile)
    requires file.action != Action.Delete ==> file.resultContent.Some?
    requires ValidWorkspace(whole) && PartOf(w, whole) && Placed(whole, file)
    ensures Normal(file.path) && !Blocked(w, file.path) && !Blocked(Fresh(w.base, w.maxFileBytes), file.path)
    ensures Touchable(w.base, file.path, Limit(w.maxFileBytes, 0))
  {
    assert file.path in whole.overlay.files || file.path in whole.tombstones;
    NotBelowWhenFile(whole, file.path);
    assert Touchable(whole.base, file.path, Limit(whole.maxFileBytes, 0));
  }

  lemma ReplayDelete(w: Workspace, whole: Workspace, path: Path)
    requires ValidWorkspace(w) && ValidWorkspace(whole) && Apart(whole) && PartOf(w, whole)
    requires path in whole.tombstones && Touchable(w.base, path, Limit(w.maxFileBytes, 0))
    ensures path !in w.overlay.files && path in w.base.files && RemoveCopy(w, path) == w
    ensures path in View(w) ==> Removed(w, path) == Tombstone(w, path) && ValidWorkspace(Tombstone(w, path))
    ensures PartOf(Tombstone(w, path), whole)
  {
    assert path !in w.overlay.files;
    assert w.overlay.files - {path} == w.overlay.files;
    if path in View(w) {
      RemovedRefines(w, path);
    }
  }

  lemma ReplayWrite(w: Workspace, whole: Workspace, file: ChangedFile)
    requires file.action != Action.Delete && file.resultContent.Some?
    requires ValidWorkspace(w) && ValidWorkspace(whole) && Apart(whole) && PartOf(w, whole) && Placed(whole, file)
    requires !Blocked(w, file.path) && Touchable(w.base, file.path, Limit(w.maxFileBytes, 0))
    ensures var r := Write(w, file.path, file.resultContent.value, Expected(Read(w, file.path, 0)));
      && r.Ok? && WriteFile(w, file.path, r.value.content) == Ok(r.value.workspace)
      && ValidWorkspace(r.value.workspace) && PartOf(w, r.value.workspace) && PartOf(r.value.workspace, whole)
      && Placed(r.value.workspace, file)
  {
    var path, content := file.path, file.resultContent.value;
    var data := whole.overlay.files[path];
    assert path !in w.tombstones;
    StoredTwice(content, BaseEnding(w.base, path).ending);
    assert path in w.overlay.files ==> w.overlay.files[path] == data;
    assert EndingAt(w, path).Consistent? && Stored(content, EndingAt(w, path).ending) == data;
    ReadRefines(w, path, 0);
    assert path in View(w) ==> Readable(View(w)[path], Limit(w.maxFileBytes, 0));
    WriteRefines(w, path, content, Expected(Read(w, path, 0)));
    WrittenIsPart(w, whole, path, data);
  }

  lemma WrittenIsPart(w: Workspace, whole: Workspace, path: Path, data: Bytes)
    requires Separated(whole) && PartOf(w, whole) && path !in w.tombstones
    requires Get(whole.overlay.files, path) == Some(data) && WriteFile(w, path, data).Ok?
    requires path in w.overlay.files ==> w.overlay.files[path] == data
    ensures var next := WriteFile(w, path, data).value;
      Untombstone(next, path) == next && PartOf(w, next) && PartOf(next, whole)
        && Get(next.overlay.files, path) == Some(data)
  {
    var next := WriteFile(w, path, data).value;
    assert next.tombstones - {path} == next.tombstones;
    assert Parents(path) <= whole.overlay.dirs;
  }

  ghost predicate BaseDigestsHold(base: Tree, maxFileBytes: int, files: seq<ChangedFile>)
  {
    forall f | f in files :: Expected(Read(Fresh(base, maxFileBytes), f.path, 0)) == f.baseDigest
  }

  ghost predicate AllPlaced(w: Workspace, files: seq<ChangedFile>)
    requires HasResults(files)
  {
    forall f | f in files :: Placed(w, f)
  }

  // Seeding started over in any part of the finished workspace.
  lemma {:induction false} Replay(w: Workspace, whole: Workspace, files: seq<ChangedFile>)
    requires HasResults(files) && ValidWorkspace(w) && ValidWorkspace(whole) && Apart(whole) && PartOf(w, whole)
    requires AllPlaced(whole, files) && BaseDigestsHold(w.base, w.maxFileBytes, files)
    ensures Seed(w, files).Ok?
    ensures var last := Seed(w, files).value;
      ValidWorkspace(last) && PartOf(w, last) && PartOf(last, whole) && AllPlaced(last, files)
    decreases |files|
  {
    if files != [] {
      var f := files[0];
      assert f in files;
      ReplayFile(w, whole, f);
      Replay(SeedFile(w, f).value, whole, files[1..]);
      forall g | g in files ensures Placed(Seed(w, files).value, g) {
        assert g == f || g in files[1..];
      }
    }
  }

  lemma {:induction false} InterruptedIsPart(w: Workspace, whole: Workspace, files: seq<ChangedFile>, left: Workspace)
    requires HasResults(files) && ValidWorkspace(w) && ValidWorkspace(whole) && Apart(whole) && PartOf(w, whole)
    requires AllPlaced(whole, files) && BaseDigestsHold(w.base, w.maxFileBytes, files)
    requires Interrupted(w, files, left)
    ensures ValidWorkspace(left) && PartOf(left, whole)
    decreases |files|
  {
    if left != w {
      var f := files[0];
      assert f in files;
      ReplayFile(w, whole, f);
      if left != HalfSeeded(w, f) {
        InterruptedIsPart(SeedFile(w, f).value, whole, files[1..], left);
      }
    }
  }

  ghost predicate Untouched(w: Workspace, path: Path)
  {
    path !in w.overlay.files && path !in w.tombstones
  }

  function Kept(files: seq<ChangedFile>): set<Path>
  {
    set f | f in files && f.action != Action.Delete :: f.path
  }

  function Dropped(files: seq<ChangedFile>): set<Path>
  {
    set f | f in files && f.action == Action.Delete :: f.path
  }

  // What seeding these files adds, and only that.
  ghost predicate Adds(w: Workspace, last: Workspace, files: seq<ChangedFile>)
  {
    && last.overlay.files.Keys == w.overlay.files.Keys + Kept(files)
    && last.tombstones == w.tombstones + Dropped(files)
    && forall d | d in last.overlay.dirs :: d in w.overlay.dirs || exists p :: p in Kept(files) && d in Parents(p)
  }

  lemma SeedUntouched(w: Workspace, file: ChangedFile)
    requires ValidWorkspace(w) && ValidEntry(file) && Untouched(w, file.path) && SeedFile(w, file).Ok?
    ensures var next := SeedFile(w, file).value;
      && ValidWorkspace(next) && PartOf(w, next) && Placed(next, file) && Adds(w, next, [file])
      && (Apart(w) ==> Apart(next))
      && Expected(Read(Fresh(w.base, w.maxFileBytes), file.path, 0)) == file.baseDigest
  {
    var path := file.path;
    ReadRefines(Fresh(w.base, w.maxFileBytes), path, 0);
    ReadRefines(w, path, 0);
    assert path in View(w) <==> path in w.base.files;
    var current := Read(w, path, 0);
    if file.action == Action.Delete {
      assert path in w.base.files;
      DeleteRefines(w, path, Expected(current));
      RemovedRefines(w, path);
      RemovedAdds(w, file);
    } else {
      WriteRefines(w, path, file.resultContent.value, Expected(current));
      assert EndingAt(w, path) == BaseEnding(w.base, path);
      WrittenAdds(w, file, Write(w, path, file.resultContent.value, Expected(current)).value.content);
    }
  }

  lemma RemovedAdds(w: Workspace, file: ChangedFile)
    requires Untouched(w, file.path) && file.action == Action.Delete && file.path in w.base.files
    ensures var next := Removed(w, file.path); PartOf(w, next) && Placed(next, file) && Adds(w, next, [file])
  {
    assert w.overlay.files - {file.path} == w.overlay.files;
    assert Dropped([file]) == {file.path} && Kept([file]) == {};
  }

  lemma WrittenAdds(w: Workspace, file: ChangedFile, data: Bytes)
    requires Untouched(w, file.path) && file.action != Action.Delete && file.resultContent.Some?
    requires BaseEnding(w.base, file.path).Consistent?
    requires data == Stored(file.resultContent.value, BaseEnding(w.base, file.path).ending)
    requires WriteFile(w, file.path, data).Ok?
    ensures var next := Untombstone(WriteFile(w, file.path, data).value, file.path);
      PartOf(w, next) && Placed(next, file) && Adds(w, next, [file])
  {
    assert w.tombstones - {file.path} == w.tombstones;
    assert Dropped([file]) == {} && Kept([file]) == {file.path};
    assert file.path in Kept([file]);
  }

  lemma UntouchedTail(w: Workspace, next: Workspace, files: seq<ChangedFile>)
    requires files != [] && DistinctPaths(files) && Adds(w, next, [files[0]])
    requires forall f | f in files :: ValidEntry(f) && Untouched(w, f.path)
    ensures DistinctPaths(files[1..])
    ensures forall f | f in files[1..] :: ValidEntry(f) && Untouched(next, f.path)
  {
    var rest := files[1..];
    forall g | g in rest ensures ValidEntry(g) && Untouched(next, g.path) {
      var i :| 0 <= i < |rest| && rest[i] == g;
      assert files[i + 1] == g && g in files && files[0].path != files[i + 1].path;
    }
    forall i, j | 0 <= i < j < |rest| ensures rest[i].path != rest[j].path {
      assert files[i + 1].path != files[j + 1].path;
    }
  }

  lemma AddsAll(w: Workspace, next: Workspace, last: Workspace, files: seq<ChangedFile>)
    requires files != [] && Adds(w, next, [files[0]]) && Adds(next, last, files[1..])
    ensures Adds(w, last, files)
  {
    assert files == [files[0]] + files[1..];
    assert Kept(files) == Kept([files[0]]) + Kept(files[1..]);
    assert Dropped(files) == Dropped([files[0]]) + Dropped(files[1..]);
  }

  // Every file of a completed seeding of untouched paths is in place, and nothing else changed.
  lemma {:induction false} SeedPlacesAll(w: Workspace, files: seq<ChangedFile>)
    requires HasResults(files) && ValidWorkspace(w) && DistinctPaths(files)
    requires forall f | f in files :: ValidEntry(f) && Untouched(w, f.path)
    requires Seed(w, files).Ok?
    ensures var last := Seed(w, files).value;
      && ValidWorkspace(last) && PartOf(w, last) && AllPlaced(last, files) && Adds(w, last, files)
      && (Apart(w) ==> Apart(last))
      && BaseDigestsHold(w.base, w.maxFileBytes, files)
    decreases |files|
  {
    var last := Seed(w, files).value;
    if files == [] {
      assert Kept(files) == {} && Dropped(files) == {};
    } else {
      var f, rest := files[0], files[1..];
      assert f in files;
      SeedUntouched(w, f);
      var next := SeedFile(w, f).value;
      UntouchedTail(w, next, files);
      SeedPlacesAll(next, rest);
      AddsAll(w, next, last, files);
      PlacedStays(next, last, f);
      forall g | g in files
        ensures Placed(last, g) && Expected(Read(Fresh(w.base, w.maxFileBytes), g.path, 0)) == g.baseDigest
      {
        assert g == f || g in rest;
      }
    }
  }

  lemma PlacedStays(w: Workspace, whole: Workspace, file: ChangedFile)
    requires file.action != Action.Delete ==> file.resultContent.Some?
    requires PartOf(w, whole) && Placed(w, file)
    ensures Placed(whole, file)
  {}

  // A part in which every file is in place is the whole.
  lemma PlacedPartIsWhole(base: Tree, maxFileBytes: int, files: seq<ChangedFile>, whole: Workspace, part: Workspace)
    requires HasResults(files) && Adds(Fresh(base, maxFileBytes), whole, files) && AllPlaced(whole, files)
    requires WellFormed(part.overlay) && PartOf(part, whole) && AllPlaced(part, files)
    ensures part == whole
  {
    forall p | p in whole.overlay.files ensures Get(part.overlay.files, p) == Some(whole.overlay.files[p]) {
      assert p in Kept(files);
      var f :| f in files && f.action != Action.Delete && f.path == p;
      assert Placed(part, f) && Placed(whole, f);
    }
    assert part.overlay.files == whole.overlay.files;
    forall p | p in whole.tombstones ensures p in part.tombstones {
      assert p in Dropped(files);
      var f :| f in files && f.action == Action.Delete && f.path == p;
      assert Placed(part, f);
    }
    forall d | d in whole.overlay.dirs ensures d in part.overlay.dirs {
      var p :| p in Kept(files) && d in Parents(p);
      assert p in part.overlay.files;
    }
  }

  // However often seeding is interrupted, the run that completes ends in the same workspace as one
  // that was never interrupted.
  lemma {:induction false} SeedingConverges(base: Tree, maxFileBytes: int, files: seq<ChangedFile>, whole: Workspace,
                                            states: seq<Workspace>)
    requires WellFormed(base) && ValidChangedFiles(files) && HasResults(files)
    requires Seed(Fresh(base, maxFileBytes), files) == Ok(whole)
    requires |states| > 0 && states[0] == Fresh(base, maxFileBytes)
    requires forall k | 0 < k < |states| :: Interrupted(states[k - 1], files, states[k])
    ensures Seed(states[|states| - 1], files) == Ok(whole)
  {
    SortedAreDistinct(files);
    SeedPlacesAll(states[0], files);
    StatesArePart(base, maxFileBytes, files, whole, states, |states| - 1);
    var last := states[|states| - 1];
    Replay(last, whole, files);
    PlacedPartIsWhole(base, maxFileBytes, files, whole, Seed(last, files).value);
  }

  lemma {:induction false} StatesArePart(base: Tree, maxFileBytes: int, files: seq<ChangedFile>, whole: Workspace,
                                         states: seq<Workspace>, k: nat)
    requires HasResults(files) && k < |states| && states[0] == Fresh(base, maxFileBytes)
    requires ValidWorkspace(states[0]) && ValidWorkspace(whole) && Apart(whole) && PartOf(states[0], whole)
    requires AllPlaced(whole, files) && BaseDigestsHold(base, maxFileBytes, files)
    requires forall k | 0 < k < |states| :: Interrupted(states[k - 1], files, states[k])
    ensures ValidWorkspace(states[k]) && PartOf(states[k], whole)
    decreases k
  {
    if k > 0 {
      StatesArePart(base, maxFileBytes, files, whole, states, k - 1);
      InterruptedIsPart(states[k - 1], whole, files, states[k]);
    }
  }

  // The seeded view is the base with the prior manifest applied, each result stored in the line
  // ending of the base file it replaces.
  lemma SeededView(base: Tree, maxFileBytes: int, files: seq<ChangedFile>, whole: Workspace)
    requires WellFormed(base) && ValidChangedFiles(files) && HasResults(files)
    requires Seed(Fresh(base, maxFileBytes), files) == Ok(whole)
    ensures ValidWorkspace(whole) && whole.base == base
    ensures forall f | f in files ::
      if f.action == Action.Delete then f.path !in View(whole)
      else
        && BaseEnding(base, f.path).Consistent?
        && Get(View(whole), f.path) == Some(Stored(f.resultContent.value, BaseEnding(base, f.path).ending))
        && Normalize(View(whole)[f.path]) == Normalize(f.resultContent.value)
    ensures forall p | (forall f | f in files :: f.path != p) :: Get(View(whole), p) == Get(base.files, p)
  {
    SortedAreDistinct(files);
    SeedPlacesAll(Fresh(base, maxFileBytes), files);
    forall f | f in files && f.action != Action.Delete
      ensures Get(View(whole), f.path) == Some(Stored(f.resultContent.value, BaseEnding(base, f.path).ending))
      ensures Normalize(View(whole)[f.path]) == Normalize(f.resultContent.value)
    {
      assert Placed(whole, f);
      StoredIsConsistent(f.resultContent.value, BaseEnding(base, f.path).ending);
    }
    forall f | f in files && f.action == Action.Delete ensures f.path !in View(whole) {
      assert Placed(whole, f);
    }
  }

  // prepareRefinementWorkspace over the editor object; the marker makes it run to completion once.
  method PrepareRefinementWorkspace(editor: E.Editor, base: Tree, prior: seq<ChangedFile>, seeded: bool)
      returns (done: bool)
    requires HasResults(prior) && ValidWorkspace(editor.State().(base := base))
    modifies editor
    ensures ValidWorkspace(editor.State()) && editor.base == base
    ensures seeded ==> done && editor.State() == old(editor.State()).(base := base)
    ensures !seeded ==> (done <==> Seed(old(editor.State()).(base := base), prior).Ok?)
    ensures !seeded && done ==> Seed(old(editor.State()).(base := base), prior) == Ok(editor.State())
  {
    editor.base := base;
    if seeded {
      return true;
    }
    ghost var start := editor.State();
    for i := 0 to |prior|
      invariant ValidWorkspace(editor.State()) && editor.base == base
      invariant Seed(editor.State(), prior[i..]) == Seed(start, prior)
    {
      var file := prior[i];
      assert file in prior && prior[i..][0] == file && prior[i..][1..] == prior[i + 1..];
      var original := Read(Fresh(editor.base, editor.maxFileBytes), file.path, 0);
      if original.Failed? || Expected(original) != file.baseDigest {
        return false;
      }
      var current := Read(editor.State(), file.path, 0);
      if current.Failed? {
        return false;
      }
      if file.action == Action.Delete {
        if current.Found? {
          var deleted := editor.Delete(file.path, Expected(current));
          if !deleted {
            return false;
          }
        }
      } else {
        var written := editor.Write(file.path, file.resultContent.value, Expected(current));
        if written.Refused? {
          return false;
        }
      }
    }
    assert prior[|prior|..] == [];
    return true;
  }
}
