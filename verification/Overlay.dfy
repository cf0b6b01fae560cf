/**
  The copy-on-write workspace as a value: an immutable base tree, an overlay tree with the agent's
  files, and the set of tombstoned paths.  Every operation is given as a function of this state;
  `View` is the single file map the agent sees, and the lemmas relate each operation to it.
*/
module Overlay {
  import opened Wrappers
  import opened Utf8
  import opened Paths
  import opened FileTree
  import opened LineEndings
  import opened Manifest

  const DEFAULT_MAX_FILE_BYTES := 262144

  datatype Workspace = Workspace(base: Tree, overlay: Tree, tombstones: set<Path>, maxFileBytes: int)

  datatype Source = FromBase | FromOverlay

  datatype ReadResult = Found(content: Bytes, source: Source) | NotExist | Failed

  function Limit(maxFileBytes: int, requested: int): (limit: int)
    ensures limit > 0
  {
    var limit := if maxFileBytes <= 0 then DEFAULT_MAX_FILE_BYTES else maxFileBytes;
    if 0 < requested < limit then requested else limit
  }

  // What readAt demands of a regular file.
  predicate Readable(content: Bytes, limit: int)
  {
    |content| <= limit && Valid(content) && 0 !in content
  }

  function ReadAt(tree: Tree, path: Path, limit: int): Stat
  {
    match At(tree, path)
    case File(content) => if Readable(content, limit) then File(content) else NotAFile
    case other => other
  }

  function Read(w: Workspace, path: Path, maxBytes: int): ReadResult
  {
    if !Normal(path) then Failed
    else if path in w.tombstones then NotExist
    else
      match ReadAt(w.overlay, path, Limit(w.maxFileBytes, maxBytes))
      case NotAFile => Failed
      case File(content) => Found(content, FromOverlay)
      case Absent =>
        match ReadAt(w.base, path, Limit(w.maxFileBytes, maxBytes))
        case NotAFile => Failed
        case File(content) => Found(content, FromBase)
        case Absent => NotExist
  }

  function EndingForWrite(w: Workspace, path: Path, expected: Digest): Outcome<Ending>
  {
    if expected == Unset then Refused
    else
      match Read(w, path, 0)
      case NotExist => if expected == AbsentDigest then Ok(Lf) else Refused
      case Failed => Refused
      case Found(content, _) =>
        if expected == Sha256(content) && Detect(content).Consistent? then Ok(Detect(content).ending) else Refused
  }

  // validateContent
  predicate Storable(data: Bytes, limit: int)
  {
    |data| <= limit && Valid(data) && 0 !in data && Detect(data).Consistent?
  }

  // The overlay file is written first and the tombstone is removed after it.
  function WriteFile(w: Workspace, path: Path, data: Bytes): Outcome<Workspace>
  {
    if BelowFile(w.base, path) then Refused
    else
      match Put(w.overlay, path, data)
      case Refused => Refused
      case Ok(overlay) => Ok(w.(overlay := overlay))
  }

  function Untombstone(w: Workspace, path: Path): Workspace
  {
    w.(tombstones := w.tombstones - {path})
  }

  datatype Written = Written(workspace: Workspace, content: Bytes)

  function Write(w: Workspace, path: Path, content: Bytes, expected: Digest): Outcome<Written>
  {
    if !Normal(path) then Refused
    else
      match EndingForWrite(w, path, expected)
      case Refused => Refused
      case Ok(ending) =>
        var data := Stored(content, ending);
        if !Storable(data, Limit(w.maxFileBytes, 0)) then Refused
        else
          match WriteFile(w, path, data)
          case Refused => Refused
          case Ok(next) => Ok(Written(Untombstone(next, path), data))
  }

  function Replace(w: Workspace, path: Path, oldText: Bytes, newText: Bytes, expected: Digest,
                   occurrences: int): Outcome<Written>
  {
    var pattern, with := Normalize(oldText), Normalize(newText);
    if pattern == [] then Refused
    else
      match Read(w, path, 0)
      case NotExist => Refused
      case Failed => Refused
      case Found(content, _) =>
        var text := Normalize(content);
        var n := if occurrences <= 0 then 1 else occurrences;
        if Sha256(content) != expected || Count(text, pattern) != n then Refused
        else Write(w, path, ReplaceFirst(text, pattern, with, n), expected)
  }

  // The overlay copy goes first, then the tombstone is set: the state in between is that of a crash.
  function RemoveCopy(w: Workspace, path: Path): Workspace
  {
    w.(overlay := Drop(w.overlay, path))
  }

  function Tombstone(w: Workspace, path: Path): Workspace
  {
    w.(tombstones := w.tombstones + {path})
  }

  function Delete(w: Workspace, path: Path, expected: Digest): Outcome<Workspace>
  {
    match Read(w, path, 0)
    case NotExist => Refused
    case Failed => Refused
    case Found(content, _) =>
      if Sha256(content) != expected then Refused
      else
        match ReadAt(w.base, path, Limit(w.maxFileBytes, 0))
        case NotAFile => Refused
        case Absent => Ok(Untombstone(RemoveCopy(w, path), path))
        case File(_) => Ok(Tombstone(RemoveCopy(w, path), path))
  }

  // The one file map the workspace stands for.
  function View(w: Workspace): map<Path, Bytes>
  {
    (w.base.files + w.overlay.files) - w.tombstones
  }

  function Dirs(w: Workspace): set<Path>
  {
    w.base.dirs + w.overlay.dirs
  }

  // Nothing can be written here: a directory, or below a file, of either tree.
  predicate Blocked(w: Workspace, path: Path)
  {
    path in Dirs(w) || BelowFile(w.base, path) || BelowFile(w.overlay, path)
  }

  // The two trees and the tombstones fit together.
  ghost predicate Separated(w: Workspace)
  {
    && WellFormed(w.base) && WellFormed(w.overlay)
    // no file of one tree is a directory of the other
    && w.base.files.Keys !! w.overlay.dirs && w.overlay.files.Keys !! w.base.dirs
    // a tombstoned path exists in the base
    && w.tombstones <= w.base.files.Keys
  }

  // No path is both stored and tombstoned.  A write that stops before it removes the tombstone
  // leaves such a path behind; nothing else does.
  ghost predicate Apart(w: Workspace)
  {
    w.tombstones !! w.overlay.files.Keys
  }

  ghost predicate Touchable(base: Tree, path: Path, limit: int)
  {
    Normal(path) && (path in base.files ==> Readable(base.files[path], limit))
  }

  // Only readable files were ever changed, and only text was stored.
  ghost predicate TextOnly(w: Workspace)
  {
    && (forall p | p in w.overlay.files ::
          Storable(w.overlay.files[p], Limit(w.maxFileBytes, 0)) && Touchable(w.base, p, Limit(w.maxFileBytes, 0)))
    && (forall p | p in w.tombstones :: Touchable(w.base, p, Limit(w.maxFileBytes, 0)))
  }

  ghost predicate ValidWorkspace(w: Workspace)
  {
    Separated(w) && TextOnly(w)
  }

  function Fresh(base: Tree, maxFileBytes: int): (w: Workspace)
    ensures WellFormed(base) ==> ValidWorkspace(w) && View(w) == base.files
  {
    Workspace(base, Tree(map[], {}), {}, maxFileBytes)
  }

  // Read looks the path up in the view.
  lemma ReadRefines(w: Workspace, path: Path, maxBytes: int)
    requires ValidWorkspace(w) && Normal(path)
    ensures Read(w, path, maxBytes).NotExist? <==> path !in View(w) && !Blocked(w, path)
    ensures Read(w, path, maxBytes).Failed? <==>
      Blocked(w, path) || (path in View(w) && !Readable(View(w)[path], Limit(w.maxFileBytes, maxBytes)))
    ensures Read(w, path, maxBytes).Found? ==> path in View(w) && Read(w, path, maxBytes).content == View(w)[path]
    ensures path in View(w) ==> !Blocked(w, path)
  {
    if path in w.base.files || path in w.overlay.files {
      NotBelowWhenFile(w, path);
    }
  }

  lemma NotBelowWhenFile(w: Workspace, path: Path)
    requires ValidWorkspace(w)
    requires path in w.base.files || path in w.overlay.files
    ensures !Blocked(w, path)
  {
    if path in w.base.files {
      assert Parents(path) <= w.base.dirs;
    } else {
      assert Parents(path) <= w.overlay.dirs;
    }
  }

  // The ending a write at this path keeps: that of the file it replaces, LF for a new file.
  function EndingAt(w: Workspace, path: Path): Detection
  {
    if path in View(w) then Detect(View(w)[path]) else Consistent(Lf)
  }

  predicate CanWrite(w: Workspace, path: Path, content: Bytes, expected: Digest)
  {
    && Normal(path) && !Blocked(w, path)
    && expected == DigestOf(Get(View(w), path))
    && (path in View(w) ==> Readable(View(w)[path], Limit(w.maxFileBytes, 0)))
    && EndingAt(w, path).Consistent?
    && Storable(Stored(content, EndingAt(w, path).ending), Limit(w.maxFileBytes, 0))
  }

  // Write is put: exactly when the digest is current and nothing is in the way, and then only this
  // path changes, to the text in the file's own line ending.
  lemma WriteRefines(w: Workspace, path: Path, content: Bytes, expected: Digest)
    requires ValidWorkspace(w)
    ensures Write(w, path, content, expected).Ok? <==> CanWrite(w, path, content, expected)
    ensures Write(w, path, content, expected).Ok? ==>
      var r := Write(w, path, content, expected).value;
      && ValidWorkspace(r.workspace) && r.workspace.base == w.base && r.workspace.maxFileBytes == w.maxFileBytes
      && r.content == Stored(content, EndingAt(w, path).ending)
      && View(r.workspace) == View(w)[path := r.content]
  {
    if Normal(path) {
      ReadRefines(w, path, 0);
      if EndingForWrite(w, path, expected).Ok? {
        var data := Stored(content, EndingAt(w, path).ending);
        if Storable(data, Limit(w.maxFileBytes, 0)) {
          WriteFileRefines(w, path, data);
        }
      }
    }
  }

  lemma WriteFileRefines(w: Workspace, path: Path, data: Bytes)
    requires ValidWorkspace(w) && Touchable(w.base, path, Limit(w.maxFileBytes, 0)) && !Blocked(w, path)
    requires Storable(data, Limit(w.maxFileBytes, 0))
    ensures WriteFile(w, path, data).Ok?
    ensures ValidWorkspace(Untombstone(WriteFile(w, path, data).value, path))
    ensures View(Untombstone(WriteFile(w, path, data).value, path)) == View(w)[path := data]
  {
    PutKeepsSeparated(w, path, data);
    PutKeepsText(w, path, data);
    PutView(w, path, data);
  }

  lemma PutKeepsText(w: Workspace, path: Path, data: Bytes)
    requires TextOnly(w) && Touchable(w.base, path, Limit(w.maxFileBytes, 0)) && WriteFile(w, path, data).Ok?
    requires Storable(data, Limit(w.maxFileBytes, 0))
    ensures TextOnly(Untombstone(WriteFile(w, path, data).value, path))
  {
    var next := Untombstone(WriteFile(w, path, data).value, path);
    var limit := Limit(w.maxFileBytes, 0);
    forall p | p in next.overlay.files ensures Storable(next.overlay.files[p], limit) && Touchable(w.base, p, limit) {
      if p != path {
        assert next.overlay.files[p] == w.overlay.files[p];
      }
    }
  }

  lemma PutView(w: Workspace, path: Path, data: Bytes)
    requires WriteFile(w, path, data).Ok?
    ensures View(Untombstone(WriteFile(w, path, data).value, path)) == View(w)[path := data]
  {}

  lemma PutKeepsSeparated(w: Workspace, path: Path, data: Bytes)
    requires Separated(w) && !Blocked(w, path)
    ensures WriteFile(w, path, data).Ok?
    ensures Separated(Untombstone(WriteFile(w, path, data).value, path))
  {
    var next := Untombstone(WriteFile(w, path, data).value, path);
    forall d | d in Parents(path) ensures d !in w.base.files {}
    assert next.overlay.dirs == w.overlay.dirs + Parents(path);
    assert next.overlay.files.Keys == w.overlay.files.Keys + {path};
  }

  // Whatever is written is kept up to its line endings, and what is stored is consistent.
  lemma WriteKeepsText(w: Workspace, path: Path, content: Bytes, expected: Digest)
    requires ValidWorkspace(w) && Write(w, path, content, expected).Ok?
    ensures Normalize(Write(w, path, content, expected).value.content) == Normalize(content)
    ensures Detect(content) == EndingAt(w, path) ==> Write(w, path, content, expected).value.content == content
  {
    WriteRefines(w, path, content, expected);
    StoredIsConsistent(content, EndingAt(w, path).ending);
    if Detect(content) == EndingAt(w, path) {
      StoredRoundTrip(content);
    }
  }

  // Writing back what was read changes neither the view nor the digest; a file with mixed line
  // endings can be read but not written.
  lemma WriteBackIsIdentity(w: Workspace, path: Path)
    requires ValidWorkspace(w) && Read(w, path, 0).Found?
    ensures var content := Read(w, path, 0).content;
      && (Detect(content).Consistent? <==> Write(w, path, content, Sha256(content)).Ok?)
      && (Detect(content).Consistent? ==>
            && Write(w, path, content, Sha256(content)).value.content == content
            && View(Write(w, path, content, Sha256(content)).value.workspace) == View(w))
  {
    var content := Read(w, path, 0).content;
    ReadRefines(w, path, 0);
    WriteRefines(w, path, content, Sha256(content));
    if Detect(content).Consistent? {
      StoredRoundTrip(content);
    }
  }

  predicate CanReplace(w: Workspace, path: Path, oldText: Bytes, newText: Bytes, expected: Digest, occurrences: int)
  {
    && Normalize(oldText) != []
    && path in View(w)
    && Count(Normalize(View(w)[path]), Normalize(oldText)) == (if occurrences <= 0 then 1 else occurrences)
    && CanWrite(w, path, ReplaceAll(Normalize(View(w)[path]), Normalize(oldText), Normalize(newText)), expected)
  }

  lemma ReplacedText(value: Bytes, oldText: Bytes, newText: Bytes)
    requires Normalize(oldText) != []
    ensures var before, pattern, with := Normalize(value), Normalize(oldText), Normalize(newText);
      && ReplaceFirst(before, pattern, with, Count(before, pattern)) == ReplaceAll(before, pattern, with)
      && Normalize(ReplaceAll(before, pattern, with)) == ReplaceAll(before, pattern, with)
      && |ReplaceAll(before, pattern, with)| == |before| + Count(before, pattern) * (|with| - |pattern|)
  {
    var before, pattern, with := Normalize(value), Normalize(oldText), Normalize(newText);
    ReplaceCounted(before, pattern, with);
    ReplaceLength(before, pattern, with);
    NormalizeIsLfForm(value);
    NormalizeIsLfForm(newText);
    ReplaceKeepsOutCr(before, pattern, with);
    NormalizeOfLf(ReplaceAll(before, pattern, with));
  }

  // Replace is a write of the file's LF form with every occurrence rewritten.
  lemma ReplaceIsWrite(w: Workspace, path: Path, oldText: Bytes, newText: Bytes, expected: Digest, occurrences: int)
    requires ValidWorkspace(w)
    ensures Replace(w, path, oldText, newText, expected, occurrences).Ok? <==>
      CanReplace(w, path, oldText, newText, expected, occurrences)
    ensures Replace(w, path, oldText, newText, expected, occurrences).Ok? ==>
      && path in View(w)
      && Replace(w, path, oldText, newText, expected, occurrences)
         == Write(w, path, ReplaceAll(Normalize(View(w)[path]), Normalize(oldText), Normalize(newText)), expected)
  {
    var pattern, with := Normalize(oldText), Normalize(newText);
    if Normal(path) && pattern != [] {
      ReadRefines(w, path, 0);
      if path in View(w) {
        var text := Normalize(View(w)[path]);
        ReplaceCounted(text, pattern, with);
        WriteRefines(w, path, ReplaceAll(text, pattern, with), expected);
      }
    }
  }

  lemma ReplaceRefines(w: Workspace, path: Path, oldText: Bytes, newText: Bytes, expected: Digest, occurrences: int)
    requires ValidWorkspace(w) && Replace(w, path, oldText, newText, expected, occurrences).Ok?
    ensures path in View(w) && Normalize(oldText) != []
    ensures var r := Replace(w, path, oldText, newText, expected, occurrences).value;
      var before, pattern, with := Normalize(View(w)[path]), Normalize(oldText), Normalize(newText);
      && ValidWorkspace(r.workspace) && r.workspace.base == w.base && r.workspace.maxFileBytes == w.maxFileBytes
      && View(r.workspace) == View(w)[path := r.content]
      && Normalize(r.content) == ReplaceAll(before, pattern, with)
      && |Normalize(r.content)| == |before| + Count(before, pattern) * (|with| - |pattern|)
  {
    ReplaceIsWrite(w, path, oldText, newText, expected, occurrences);
    ReplacedText(View(w)[path], oldText, newText);
    var text := ReplaceAll(Normalize(View(w)[path]), Normalize(oldText), Normalize(newText));
    WriteRefines(w, path, text, expected);
    WriteKeepsText(w, path, text, expected);
  }

  // Delete is remove.
  lemma DeleteRefines(w: Workspace, path: Path, expected: Digest)
    requires ValidWorkspace(w)
    ensures Delete(w, path, expected).Ok? <==>
      && Normal(path) && path in View(w) && Readable(View(w)[path], Limit(w.maxFileBytes, 0))
      && expected == Sha256(View(w)[path])
    ensures Delete(w, path, expected).Ok? ==>
      && Delete(w, path, expected).value == Removed(w, path)
      && path in View(w) && Touchable(w.base, path, Limit(w.maxFileBytes, 0))
  {
    if Normal(path) {
      ReadRefines(w, path, 0);
      if path in View(w) {
        NotBelowWhenFile(w, path);
      }
    }
  }

  // The state a finished deletion leaves.
  function Removed(w: Workspace, path: Path): Workspace
  {
    if path in w.base.files then Tombstone(RemoveCopy(w, path), path) else Untombstone(RemoveCopy(w, path), path)
  }

  lemma RemovedRefines(w: Workspace, path: Path)
    requires ValidWorkspace(w) && path in View(w) && Touchable(w.base, path, Limit(w.maxFileBytes, 0))
    ensures ValidWorkspace(Removed(w, path))
    ensures View(Removed(w, path)) == View(w) - {path}
  {
    RemovedKeepsSeparated(w, path);
    RemovedKeepsText(w, path);
  }

  lemma RemovedKeepsSeparated(w: Workspace, path: Path)
    requires Separated(w)
    ensures Separated(Removed(w, path))
    ensures View(Removed(w, path)) == View(w) - {path}
  {}

  lemma RemovedKeepsText(w: Workspace, path: Path)
    requires TextOnly(w) && Touchable(w.base, path, Limit(w.maxFileBytes, 0))
    ensures TextOnly(Removed(w, path))
  {
    var next := Removed(w, path);
    var limit := Limit(w.maxFileBytes, 0);
    forall p | p in next.overlay.files ensures Storable(next.overlay.files[p], limit) && Touchable(w.base, p, limit) {
      assert next.overlay.files[p] == w.overlay.files[p];
    }
  }

  // The paths a listing of the whole workspace shows: walk skips the excluded directories.
  function Listed(w: Workspace): set<Path>
  {
    set p | p in View(w) && !Excluded(p)
  }

  // The overlay files the manifest can report; walk skips the excluded directories here too.
  function Reported(w: Workspace): map<Path, Bytes>
  {
    map p | p in w.overlay.files && !Excluded(p) :: w.overlay.files[p]
  }

  // The file map that the workspace's manifest describes.
  function Recorded(w: Workspace): map<Path, Bytes>
  {
    (w.base.files + Reported(w)) - w.tombstones
  }

  ghost predicate IsManifestOf(files: seq<ChangedFile>, w: Workspace)
  {
    Sorted(PathsOf(files)) && IsDiff(files, w.base.files, Recorded(w))
  }

  // Outside the excluded directories the manifest records exactly the view.  It records the whole
  // view if and only if no edit was made inside an excluded directory.
  lemma RecordedIsView(w: Workspace)
    requires ValidWorkspace(w)
    ensures forall p | !Excluded(p) :: Get(Recorded(w), p) == Get(View(w), p)
    ensures Recorded(w) == View(w) <==>
      forall p | p in w.overlay.files.Keys - w.tombstones && Excluded(p) ::
        Get(w.base.files, p) == Some(w.overlay.files[p])
  {
    if Recorded(w) == View(w) {
      forall p | p in w.overlay.files.Keys - w.tombstones && Excluded(p)
        ensures Get(w.base.files, p) == Some(w.overlay.files[p]) {
        assert p in View(w) && View(w)[p] == w.overlay.files[p];
        assert p in Recorded(w) && Recorded(w)[p] == w.base.files[p];
      }
    }
    if forall p | p in w.overlay.files.Keys - w.tombstones && Excluded(p) ::
         Get(w.base.files, p) == Some(w.overlay.files[p]) {
      forall p ensures Get(Recorded(w), p) == Get(View(w), p) {}
      SameGetSameFiles(Recorded(w), View(w));
    }
  }

  // A write under an excluded directory shows in the view, yet leaves the manifest as if only a
  // deletion of that path had been taken back.
  lemma ExcludedWriteIsLost(w: Workspace, path: Path, content: Bytes, expected: Digest)
    requires ValidWorkspace(w) && Excluded(path) && Write(w, path, content, expected).Ok?
    ensures var r := Write(w, path, content, expected).value;
      && Get(View(r.workspace), path) == Some(r.content)
      && Recorded(r.workspace) ==
           if path in w.tombstones then Recorded(w)[path := w.base.files[path]] else Recorded(w)
  {
    InstalledUnderExcluded(w, path, Write(w, path, content, expected).value.content);
  }

  lemma InstalledUnderExcluded(w: Workspace, path: Path, data: Bytes)
    requires Separated(w) && Excluded(path) && WriteFile(w, path, data).Ok?
    ensures var next := Untombstone(WriteFile(w, path, data).value, path);
      && Get(View(next), path) == Some(data)
      && Recorded(next) ==
           if path in w.tombstones then Recorded(w)[path := w.base.files[path]] else Recorded(w)
  {
    var next := Untombstone(WriteFile(w, path, data).value, path);
    assert Reported(next) == Reported(w);
  }

  lemma RecordedHasRoom(w: Workspace)
    requires ValidWorkspace(w)
    ensures Room(Dirs(w), w.base, Recorded(w))
    ensures Recorded(w).Keys <= w.base.files.Keys + w.overlay.files.Keys
  {}

  // Applying the manifest to the base, in any order, never fails and yields what it records.
  lemma ManifestRoundTrip(w: Workspace, files: seq<ChangedFile>)
    requires ValidWorkspace(w) && IsDiff(files, w.base.files, Recorded(w))
    ensures HasResults(files) && ApplyFiles(w.base, files).Ok?
    ensures ApplyFiles(w.base, files).value.files == Recorded(w)
  {
    RecordedHasRoom(w);
    ApplyDiff(w.base, files, Recorded(w), Dirs(w));
  }

  // A manifest of 1 to 128 files passes the artifact validator, unless a path is too long for it
  // or holds a backslash.
  lemma ManifestValidates(w: Workspace, files: seq<ChangedFile>)
    requires ValidWorkspace(w) && IsManifestOf(files, w) && Limit(w.maxFileBytes, 0) <= MAX_CHANGED_FILE_BYTES
    ensures ValidChangedFiles(files) <==>
      && 1 <= |files| <= MAX_CHANGED_FILES
      && forall f | f in files :: |f.path| <= 512 && '\\' !in f.path
  {
    forall f | f in files ensures ValidEntry(f) <==> |f.path| <= 512 && '\\' !in f.path {
      EntryValidates(w, files, f);
    }
  }

  lemma EntryValidates(w: Workspace, files: seq<ChangedFile>, f: ChangedFile)
    requires ValidWorkspace(w) && IsManifestOf(files, w) && Limit(w.maxFileBytes, 0) <= MAX_CHANGED_FILE_BYTES
    requires f in files
    ensures ValidEntry(f) <==> |f.path| <= 512 && '\\' !in f.path
  {
    EntryTouched(w, files, f);
    NormalIsRepositoryPath(f.path);
    if f.action != Action.Delete {
      assert f.path in Reported(w);
    }
  }

  // An entry stands for an edit, and what it carries is the text stored by that edit.
  lemma EntryTouched(w: Workspace, files: seq<ChangedFile>, f: ChangedFile)
    requires ValidWorkspace(w) && IsManifestOf(files, w) && f in files
    ensures EntryFor(f.path, Get(w.base.files, f.path), Get(Recorded(w), f.path)) == Some(f)
    ensures Normal(f.path)
    ensures f.action == Action.Delete ||
      (f.path in Reported(w) && f.resultContent == Some(Reported(w)[f.path])
       && Storable(Reported(w)[f.path], Limit(w.maxFileBytes, 0)))
  {
    assert Get(w.base.files, f.path) != Get(Recorded(w), f.path);
    assert f.path in w.overlay.files.Keys + w.tombstones;
  }

  lemma NormalIsRepositoryPath(path: Path)
    requires Normal(path)
    ensures RepositoryPath(path) <==> |path| <= 512 && '\\' !in path
  {}
}
